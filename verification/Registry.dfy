/** `AssociationRegistry` of src/server.rs:26-120: two hash indexes over the table of UDP
    associations, kept in step with it, against a plain scan of the table. */
module Registry {
  import opened Wrappers
  import opened Net

  // ---- The table without indexes ----

  /** What the registry knows of one association. */
  datatype Entry = Entry(clientIp: IpAddr, requestedPort: u16, endpoint: Option<SocketAddr>, alive: bool)

  type Table = map<nat, Entry>

  /** The endpoint key an association answers for, once it has one. */
  function Claim(e: Entry): Option<SocketAddr> {
    if e.requestedPort != 0 then Some(SocketAddr(Normalize(e.clientIp), e.requestedPort))
    else match e.endpoint case Some(x) => Some(EndpointKey(x)) case None => None
  }

  /** A port-0 association of this address that still waits for its first datagram. */
  predicate Waits(e: Entry, ip: IpAddr) {
    e.requestedPort == 0 && e.endpoint.None? && Normalize(e.clientIp) == ip
  }

  ghost predicate Claimed(m: Table, key: SocketAddr) {
    exists id {:trigger Claim(m[id])} :: id in m && Claim(m[id]) == Some(key)
  }

  ghost predicate Awaited(m: Table, ip: IpAddr) {
    exists id {:trigger Waits(m[id], ip)} :: id in m && Waits(m[id], ip)
  }

  predicate EntryFits(e: Entry) {
    EndpointFits(e.clientIp, e.requestedPort, e.endpoint)
  }

  /** No two associations answer for the same key, none waits beside another of its address. */
  ghost predicate TableOk(m: Table) {
    && (forall id {:trigger EntryFits(m[id])} {:trigger Claim(m[id])} :: id in m ==> EntryFits(m[id]))
    && (forall i, j {:trigger Claim(m[i]), Claim(m[j])} ::
          i in m && j in m && Claim(m[i]).Some? && Claim(m[i]) == Claim(m[j]) ==> i == j)
    && (forall i, j, ip {:trigger Waits(m[i], ip), Waits(m[j], ip)} ::
          i in m && j in m && Waits(m[i], ip) && Waits(m[j], ip) ==> i == j)
  }

  /** The scan: the entry that claims the key of `source`, dead or alive; only if there is
      none, the entry of its address that waits. */
  ghost predicate Owns(m: Table, id: nat, source: SocketAddr) {
    && id in m
    && (Claim(m[id]) == Some(EndpointKey(source))
        || (!Claimed(m, EndpointKey(source)) && Waits(m[id], Normalize(source.ip))))
  }

  ghost predicate Owned(m: Table, source: SocketAddr) {
    exists id :: Owns(m, id, source)
  }

  ghost function OwnerOf(m: Table, source: SocketAddr): (r: Option<nat>)
    ensures r.Some? ==> Owns(m, r.value, source)
    ensures r.None? ==> !Owned(m, source)
  {
    if Owned(m, source) then (var id :| Owns(m, id, source); Some(id)) else None
  }

  lemma OwnerUnique(m: Table, source: SocketAddr, i: nat, j: nat)
    requires TableOk(m) && Owns(m, i, source) && Owns(m, j, source)
    ensures i == j
  {}

  ghost predicate CanInsert(m: Table, ip: IpAddr, port: u16) {
    if port == 0 then !Awaited(m, Normalize(ip)) else !Claimed(m, SocketAddr(Normalize(ip), port))
  }

  ghost function TableInsert(m: Table, id: nat, ip: IpAddr, port: u16, alive: bool): Table {
    if CanInsert(m, ip, port) then m[id := Entry(ip, port, None, alive)] else m
  }

  ghost function TableFind(m: Table, source: SocketAddr): Option<nat> {
    match OwnerOf(m, source)
    case Some(id) => if m[id].alive then Some(id) else None
    case None => None
  }

  /** Finding an association binds it to the source's address. */
  ghost function TableAfterFind(m: Table, source: SocketAddr): Table {
    match TableFind(m, source)
    case Some(id) => m[id := m[id].(endpoint := Some(source))]
    case None => m
  }

  // ---- The indexes ----

  /** The two indexes hold every entry in exactly the place it belongs, and nothing else. */
  ghost predicate IndexOk(m: Table, endpoints: map<SocketAddr, nat>, pending: map<IpAddr, nat>) {
    && TableOk(m)
    && (forall k {:trigger endpoints[k]} :: k in endpoints ==> endpoints[k] in m && Claim(m[endpoints[k]]) == Some(k))
    && (forall ip {:trigger pending[ip]} :: ip in pending ==> pending[ip] in m && Waits(m[pending[ip]], ip))
    && (forall id {:trigger Claim(m[id])} :: id in m && Claim(m[id]).Some? ==>
          Claim(m[id]).value in endpoints && endpoints[Claim(m[id]).value] == id)
    && (forall id {:trigger Claim(m[id])} :: id in m && Claim(m[id]).None? ==>
          Normalize(m[id].clientIp) in pending && pending[Normalize(m[id].clientIp)] == id)
  }

  lemma {:induction false} InjectiveSize<K, V>(m: map<K, V>)
    requires forall x, y :: x in m && y in m && m[x] == m[y] ==> x == y
    ensures |m.Values| == |m|
    decreases |m|
  {
    if m != map[] {
      var k :| k in m;
      var rest := m - {k};
      assert rest.Keys == m.Keys - {k};
      InjectiveSize(rest);
      assert m.Values == rest.Values + {m[k]} by {
        forall v | v in m.Values ensures v in rest.Values + {m[k]} {
          var x :| x in m && m[x] == v;
          assert x != k ==> x in rest && rest[x] == v;
        }
      }
      assert m[k] !in rest.Values;
    } else {
      assert m.Values == {};
    }
  }

  lemma IndexValues(m: Table, endpoints: map<SocketAddr, nat>, pending: map<IpAddr, nat>)
    requires IndexOk(m, endpoints, pending)
    ensures endpoints.Values == set id | id in m && Claim(m[id]).Some?
    ensures pending.Values == set id | id in m && Claim(m[id]).None?
  {
    forall id | id in m && Claim(m[id]).Some? ensures id in endpoints.Values {
      assert endpoints[Claim(m[id]).value] == id;
    }
    forall id | id in m && Claim(m[id]).None? ensures id in pending.Values {
      assert pending[Normalize(m[id].clientIp)] == id;
    }
  }

  lemma DisjointSize<T>(a: set<T>, b: set<T>, c: set<T>)
    requires a !! b && c == a + b
    ensures |c| == |a| + |b|
  {}

  /** Every registered id sits in exactly one index slot. */
  lemma IndexPartition(m: Table, endpoints: map<SocketAddr, nat>, pending: map<IpAddr, nat>)
    requires IndexOk(m, endpoints, pending)
    ensures endpoints.Values !! pending.Values && m.Keys == endpoints.Values + pending.Values
  {
    IndexValues(m, endpoints, pending);
  }

  lemma IndexesInjective(m: Table, endpoints: map<SocketAddr, nat>, pending: map<IpAddr, nat>)
    requires IndexOk(m, endpoints, pending)
    ensures forall x, y :: x in endpoints && y in endpoints && endpoints[x] == endpoints[y] ==> x == y
    ensures forall x, y :: x in pending && y in pending && pending[x] == pending[y] ==> x == y
  {}

  /** So the sizes of the two indexes add up to that of the table. */
  lemma IndexSizes(m: Table, endpoints: map<SocketAddr, nat>, pending: map<IpAddr, nat>)
    requires IndexOk(m, endpoints, pending)
    ensures |m| == |endpoints| + |pending|
  {
    IndexPartition(m, endpoints, pending);
    IndexesInjective(m, endpoints, pending);
    InjectiveSize(endpoints);
    InjectiveSize(pending);
    DisjointSize(endpoints.Values, pending.Values, m.Keys);
  }

  /** The indexes are determined by the table: nothing stale can survive in them. */
  lemma IndexDetermined(m: Table, e: map<SocketAddr, nat>, p: map<IpAddr, nat>, e': map<SocketAddr, nat>, p': map<IpAddr, nat>)
    requires IndexOk(m, e, p) && IndexOk(m, e', p')
    ensures e == e' && p == p'
  {
    forall k ensures k in e <==> k in e' {
      if k in e { assert Claim(m[e[k]]) == Some(k); }
      if k in e' { assert Claim(m[e'[k]]) == Some(k); }
    }
    forall k | k in e ensures e[k] == e'[k] { assert Claim(m[e[k]]) == Some(k); }
    forall ip ensures ip in p <==> ip in p' {
      if ip in p { assert Waits(m[p[ip]], ip) && Claim(m[p[ip]]).None?; }
      if ip in p' { assert Waits(m[p'[ip]], ip) && Claim(m[p'[ip]]).None?; }
    }
    forall ip | ip in p ensures p[ip] == p'[ip] { assert Waits(m[p[ip]], ip) && Claim(m[p[ip]]).None?; }
  }

  // ---- Why the indexes stay right ----

  /** One lookup tells whether the waiting place or the key is taken. */
  lemma NobodyWaits(m: Table, e: map<SocketAddr, nat>, p: map<IpAddr, nat>, ip: IpAddr)
    requires IndexOk(m, e, p)
    ensures Awaited(m, ip) <==> ip in p
  {
    if ip in p {
      assert Waits(m[p[ip]], ip);
    } else {
      forall k | k in m ensures !Waits(m[k], ip) { assert Claim(m[k]).Some? || Claim(m[k]).None?; }
    }
  }

  lemma InsertWaiting(m: Table, e: map<SocketAddr, nat>, p: map<IpAddr, nat>, id: nat, entry: Entry)
    requires IndexOk(m, e, p) && id !in m && entry.requestedPort == 0 && entry.endpoint.None?
    requires Normalize(entry.clientIp) !in p
    ensures IndexOk(m[id := entry], e, p[Normalize(entry.clientIp) := id])
  {
    NobodyWaits(m, e, p, Normalize(entry.clientIp));
    assert forall i :: i in m ==> m[id := entry][i] == m[i];
  }

  lemma InsertClaiming(m: Table, e: map<SocketAddr, nat>, p: map<IpAddr, nat>, id: nat, entry: Entry)
    requires IndexOk(m, e, p) && id !in m && entry.requestedPort != 0 && entry.endpoint.None?
    requires SocketAddr(Normalize(entry.clientIp), entry.requestedPort) !in e
    ensures IndexOk(m[id := entry], e[SocketAddr(Normalize(entry.clientIp), entry.requestedPort) := id], p)
  {
    assert forall i :: i in m ==> m[id := entry][i] == m[i];
  }

  lemma FindKeepsTable(m: Table, id: nat, source: SocketAddr)
    requires TableOk(m) && Owns(m, id, source)
    ensures TableOk(m[id := m[id].(endpoint := Some(source))])
    ensures Claim(m[id].(endpoint := Some(source))) == Some(EndpointKey(source))
  {
    var m' := m[id := m[id].(endpoint := Some(source))];
    assert Claim(m'[id]) == Some(EndpointKey(source));
    assert forall i :: i in m && i != id ==> m'[i] == m[i];
  }

  lemma BindKeepsIndex(m: Table, e: map<SocketAddr, nat>, p: map<IpAddr, nat>, id: nat, source: SocketAddr)
    requires IndexOk(m, e, p) && id in m && Claim(m[id]) == Some(EndpointKey(source))
    ensures IndexOk(m[id := m[id].(endpoint := Some(source))], e, p)
  {
    var m' := m[id := m[id].(endpoint := Some(source))];
    FindKeepsTable(m, id, source);
    assert Claim(m'[id]) == Claim(m[id]) && forall i :: i in m && i != id ==> m'[i] == m[i];
  }

  lemma FirstBindKeepsIndex(m: Table, e: map<SocketAddr, nat>, p: map<IpAddr, nat>, id: nat, source: SocketAddr)
    requires IndexOk(m, e, p) && id in m && Waits(m[id], Normalize(source.ip))
    requires !Claimed(m, EndpointKey(source))
    ensures IndexOk(m[id := m[id].(endpoint := Some(source))], e[EndpointKey(source) := id], p - {Normalize(source.ip)})
  {
    var m' := m[id := m[id].(endpoint := Some(source))];
    assert Claim(m[id]).None?;
    FindKeepsTable(m, id, source);
    assert forall i :: i in m && i != id ==> m'[i] == m[i];
  }

  lemma RemoveKeepsIndex(m: Table, e: map<SocketAddr, nat>, p: map<IpAddr, nat>, id: nat)
    requires IndexOk(m, e, p) && id in m
    ensures IndexOk(m - {id},
                    if Claim(m[id]).Some? then e - {Claim(m[id]).value} else e,
                    if Claim(m[id]).Some? then p else p - {Normalize(m[id].clientIp)})
  {
    var m' := m - {id};
    assert forall i :: i in m' ==> i in m && m'[i] == m[i];
  }

  lemma NobodyClaims(m: Table, e: map<SocketAddr, nat>, p: map<IpAddr, nat>, key: SocketAddr)
    requires IndexOk(m, e, p)
    ensures Claimed(m, key) <==> key in e
  {
    if key in e { assert Claim(m[e[key]]) == Some(key); }
  }

  lemma PlaceIsFree(m: Table, e: map<SocketAddr, nat>, p: map<IpAddr, nat>, ip: IpAddr, port: u16)
    requires IndexOk(m, e, p)
    ensures CanInsert(m, ip, port) <==>
      if port == 0 then Normalize(ip) !in p else SocketAddr(Normalize(ip), port) !in e
  {
    if port == 0 { NobodyWaits(m, e, p, Normalize(ip)); } else { NobodyClaims(m, e, p, SocketAddr(Normalize(ip), port)); }
  }

  /** Two lookups find the owner that the scan finds. */
  lemma IndexFinds(m: Table, e: map<SocketAddr, nat>, p: map<IpAddr, nat>, source: SocketAddr)
    requires IndexOk(m, e, p)
    ensures EndpointKey(source) in e ==>
      Claim(m[e[EndpointKey(source)]]) == Some(EndpointKey(source)) && OwnerOf(m, source) == Some(e[EndpointKey(source)])
    ensures EndpointKey(source) !in e ==> !Claimed(m, EndpointKey(source))
    ensures EndpointKey(source) !in e && Normalize(source.ip) in p ==>
      Waits(m[p[Normalize(source.ip)]], Normalize(source.ip)) && OwnerOf(m, source) == Some(p[Normalize(source.ip)])
    ensures EndpointKey(source) !in e && Normalize(source.ip) !in p ==> OwnerOf(m, source) == None
  {
    var key, ip := EndpointKey(source), Normalize(source.ip);
    if key in e {
      assert Owns(m, e[key], source);
      OwnerUnique(m, source, e[key], OwnerOf(m, source).value);
    } else if ip in p {
      assert Owns(m, p[ip], source);
      OwnerUnique(m, source, p[ip], OwnerOf(m, source).value);
    } else {
      forall id ensures !Owns(m, id, source) {
        if id in m { assert Claim(m[id]).Some? || Claim(m[id]).None?; }
      }
    }
  }

  lemma KillKeepsTable(m: Table, id: nat)
    requires TableOk(m) && id in m
    ensures TableOk(m[id := m[id].(alive := false)])
  {
    var m' := m[id := m[id].(alive := false)];
    assert forall i :: i in m ==> Claim(m'[i]) == Claim(m[i]);
    assert forall i, ip :: i in m ==> (Waits(m'[i], ip) <==> Waits(m[i], ip));
  }

  /** The `alive` flag is cleared outside the registry's lock; the indexes do not depend on it. */
  lemma KillKeepsIndex(m: Table, e: map<SocketAddr, nat>, p: map<IpAddr, nat>, id: nat)
    requires IndexOk(m, e, p) && id in m
    ensures IndexOk(m[id := m[id].(alive := false)], e, p)
  {
    var m' := m[id := m[id].(alive := false)];
    KillKeepsTable(m, id);
    assert Claim(m'[id]) == Claim(m[id]) && forall i :: i in m && i != id ==> m'[i] == m[i];
  }

  /** `accepts` never refuses the association that was looked up: it is asked about the owner
      of the source, and answers yes for it and for no other association that has a key. */
  lemma AcceptsNeverVetoes(m: Table, id: nat, source: SocketAddr)
    requires TableOk(m) && id in m
    ensures Owns(m, id, source) ==> Net.Accepts(m[id].clientIp, m[id].requestedPort, m[id].endpoint, source)
    ensures Claim(m[id]).Some? && Net.Accepts(m[id].clientIp, m[id].requestedPort, m[id].endpoint, source)
            ==> Owns(m, id, source)
  {
    assert EntryFits(m[id]);
  }

  // ---- The answers by what the associations have ----

  /** The association has asked for this address and port, or for any port and has been bound to
      this address and port; up to mapping. */
  predicate HasPlace(e: Entry, ip: IpAddr, port: u16) {
    if e.requestedPort != 0 then Normalize(e.clientIp) == ip && e.requestedPort == port
    else e.endpoint.Some? && Normalize(e.endpoint.value.ip) == ip && e.endpoint.value.port == port
  }

  /** It has asked for any port and has not been bound yet. */
  predicate IsUnbound(e: Entry, ip: IpAddr) {
    e.requestedPort == 0 && e.endpoint.None? && Normalize(e.clientIp) == ip
  }

  /** A datagram is assigned to the live association that has its address and port; only if
      there is none, dead or alive, to the live one of its address that is not bound yet. */
  lemma FoundExactly(m: Table, source: SocketAddr, id: nat)
    requires TableOk(m)
    ensures TableFind(m, source) == Some(id) <==>
      && id in m && m[id].alive
      && (|| HasPlace(m[id], Normalize(source.ip), source.port)
          || (IsUnbound(m[id], Normalize(source.ip))
              && forall k :: k in m ==> !HasPlace(m[k], Normalize(source.ip), source.port)))
  {
    forall k | k in m
      ensures Claim(m[k]) == Some(EndpointKey(source)) <==> HasPlace(m[k], Normalize(source.ip), source.port)
    {}
    assert id in m ==> (Owns(m, id, source) <==>
      || HasPlace(m[id], Normalize(source.ip), source.port)
      || (!Claimed(m, EndpointKey(source)) && IsUnbound(m[id], Normalize(source.ip))));
    if id in m && Owns(m, id, source) { OwnerUnique(m, source, id, OwnerOf(m, source).value); }
  }

  /** A request for any port is refused exactly if another association of its address is not
      bound yet, and a request for one port exactly if another association has it. */
  lemma RefusedExactly(m: Table, ip: IpAddr, port: u16)
    ensures !CanInsert(m, ip, port) <==>
      exists k :: k in m && if port == 0 then IsUnbound(m[k], Normalize(ip)) else HasPlace(m[k], Normalize(ip), port)
  {
    if port == 0 && Awaited(m, Normalize(ip)) {
      var k :| k in m && Waits(m[k], Normalize(ip));
      assert IsUnbound(m[k], Normalize(ip));
    }
    if port != 0 && Claimed(m, SocketAddr(Normalize(ip), port)) {
      var k :| k in m && Claim(m[k]) == Some(SocketAddr(Normalize(ip), port));
      assert HasPlace(m[k], Normalize(ip), port);
    }
    if k :| k in m && if port == 0 then IsUnbound(m[k], Normalize(ip)) else HasPlace(m[k], Normalize(ip), port) {
      assert port == 0 ==> Waits(m[k], Normalize(ip));
      assert port != 0 ==> Claim(m[k]) == Some(SocketAddr(Normalize(ip), port));
    }
  }

  // ---- The program ----

  class Association {
    const clientIp: IpAddr
    const requestedPort: u16
    var endpoint: Option<SocketAddr>
    var alive: bool

    constructor (clientIp: IpAddr, requestedPort: u16)
      ensures this.clientIp == clientIp && this.requestedPort == requestedPort
      ensures endpoint == None && alive
    {
      this.clientIp := clientIp;
      this.requestedPort := requestedPort;
      endpoint := None;
      alive := true;
    }

    ghost function View(): Entry
      reads this
    {
      Entry(clientIp, requestedPort, endpoint, alive)
    }

    method Accepts(source: SocketAddr) returns (ok: bool)
      modifies this`endpoint
      ensures ok == Net.Accepts(clientIp, requestedPort, old(endpoint), source)
      ensures endpoint == if ok then Some(source) else old(endpoint)
    {
      if Normalize(source.ip) != Normalize(clientIp) || (requestedPort != 0 && requestedPort != source.port) {
        return false;
      }
      match endpoint
      case Some(existing) =>
        if EndpointKey(existing) == EndpointKey(source) {
          endpoint := Some(source);
          ok := true;
        } else {
          ok := false;
        }
      case None =>
        endpoint := Some(source);
        ok := true;
    }
  }

  class AssociationRegistry {
    var entries: map<nat, Association>
    var endpoints: map<SocketAddr, nat>
    var pending: map<IpAddr, nat>

    constructor ()
      ensures Valid() && entries == map[]
    {
      entries, endpoints, pending := map[], map[], map[];
    }

    /** The table as values. */
    ghost function Contents(): Table
      reads this, entries.Values
    {
      map id | id in entries :: entries[id].View()
    }

    ghost predicate Valid()
      reads this, entries.Values
    {
      && (forall i, j {:trigger entries[i], entries[j]} :: i in entries && j in entries && entries[i] == entries[j] ==> i == j)
      && IndexOk(Contents(), endpoints, pending)
    }

    /** `id` is fresh (src/server.rs:275) and the association new (src/server.rs:585-593). */
    method Insert(id: nat, association: Association) returns (ok: bool)
      requires Valid() && id !in entries
      requires association !in entries.Values && association.endpoint == None
      modifies this
      ensures Valid()
      ensures ok <==> CanInsert(old(Contents()), association.clientIp, association.requestedPort)
      ensures Contents() == TableInsert(old(Contents()), id, association.clientIp, association.requestedPort, association.alive)
      ensures entries == if ok then old(entries)[id := association] else old(entries)
    {
      ghost var m: Table := Contents();
      ghost var m' := m[id := association.View()];
      var ip := Normalize(association.clientIp);
      PlaceIsFree(m, endpoints, pending, association.clientIp, association.requestedPort);
      if association.requestedPort == 0 {
        if ip in pending { return false; }
        InsertWaiting(m, endpoints, pending, id, association.View());
        pending := pending[ip := id];
      } else {
        var endpoint := SocketAddr(ip, association.requestedPort);
        if endpoint in endpoints { return false; }
        InsertClaiming(m, endpoints, pending, id, association.View());
        endpoints := endpoints[endpoint := id];
      }
      entries := entries[id := association];
      assert Contents() == m';
      ok := true;
    }

    method Find(source: SocketAddr) returns (found: Option<Association>)
      requires Valid()
      modifies this, entries.Values`endpoint
      ensures Valid() && entries == old(entries)
      ensures match TableFind(old(Contents()), source)
              case Some(id) => id in entries && found == Some(entries[id])
              case None => found == None
      ensures Contents() == TableAfterFind(old(Contents()), source)
    {
      ghost var m: Table := Contents();
      var endpoint := EndpointKey(source);
      if endpoint in endpoints {
        var id := endpoints[endpoint];
        var association := entries[id];
        IndexFinds(m, endpoints, pending, source);
        if !association.alive { return None; }
        var ok := association.Accepts(source);
        assert ok;
        assert Contents() == m[id := m[id].(endpoint := Some(source))];
        BindKeepsIndex(m, endpoints, pending, id, source);
        return Some(association);
      }
      IndexFinds(m, endpoints, pending, source);
      var ip := Normalize(source.ip);
      if ip !in pending { return None; }
      var id := pending[ip];
      var association := entries[id];
      if !association.alive { return None; }
      var ok := association.Accepts(source);
      assert ok;
      pending := pending - {ip};
      endpoints := endpoints[endpoint := id];
      assert Contents() == m[id := m[id].(endpoint := Some(source))];
      FirstBindKeepsIndex(m, old(endpoints), old(pending), id, source);
      found := Some(association);
    }

    method Remove(id: nat)
      requires Valid()
      modifies this
      ensures Valid()
      ensures entries == old(entries) - {id}
      ensures Contents() == old(Contents()) - {id}
    {
      ghost var m: Table := Contents();
      if id !in entries {
        assert entries - {id} == entries;
        assert m - {id} == m;
        return;
      }
      var association := entries[id];
      entries := entries - {id};
      var ip := Normalize(association.clientIp);
      var endpoint: Option<SocketAddr>;
      if association.requestedPort != 0 {
        endpoint := Some(SocketAddr(ip, association.requestedPort));
      } else {
        match association.endpoint
        case Some(x) => endpoint := Some(EndpointKey(x));
        case None => endpoint := None;
      }
      assert endpoint == Claim(m[id]);
      if endpoint.Some? {
        if endpoint.value in endpoints && endpoints[endpoint.value] == id {
          endpoints := endpoints - {endpoint.value};
        }
      } else if ip in pending && pending[ip] == id {
        pending := pending - {ip};
      }
      assert Contents() == m - {id};
      RemoveKeepsIndex(m, old(endpoints), old(pending), id);
    }
  }

  // ---- Runs ----

  /** What can happen to the table; `Kill` is the `alive` flag being cleared. */
  datatype Op = Insert(id: nat, ip: IpAddr, port: u16) | Find(source: SocketAddr) | Remove(id: nat) | Kill(id: nat)

  ghost predicate OpOk(m: Table, op: Op) {
    op.Insert? ==> op.id !in m
  }

  ghost function After(m: Table, op: Op): Table {
    match op
    case Insert(id, ip, port) => TableInsert(m, id, ip, port, true)
    case Find(source) => TableAfterFind(m, source)
    case Remove(id) => m - {id}
    case Kill(id) => if id in m then m[id := m[id].(alive := false)] else m
  }

  /** A run of the registry from empty. */
  ghost predicate IsHistory(ts: seq<Table>, ops: seq<Op>) {
    && |ts| == |ops| + 1 && ts[0] == map[]
    && forall i {:trigger ops[i]} :: 0 <= i < |ops| ==> OpOk(ts[i], ops[i]) && ts[i + 1] == After(ts[i], ops[i])
  }

  lemma InsertKeepsTable(m: Table, id: nat, ip: IpAddr, port: u16)
    requires TableOk(m) && id !in m && CanInsert(m, ip, port)
    ensures TableOk(m[id := Entry(ip, port, None, true)])
  {
    var m' := m[id := Entry(ip, port, None, true)];
    assert forall i :: i in m ==> m'[i] == m[i];
  }

  lemma OpKeepsTable(m: Table, op: Op)
    requires TableOk(m) && OpOk(m, op)
    ensures TableOk(After(m, op))
  {
    match op
    case Insert(id, ip, port) =>
      if CanInsert(m, ip, port) { InsertKeepsTable(m, id, ip, port); }
    case Find(source) =>
      if TableFind(m, source).Some? { FindKeepsTable(m, TableFind(m, source).value, source); }
    case Remove(id) => assert forall i :: i in m - {id} ==> i in m && (m - {id})[i] == m[i];
    case Kill(id) => if id in m { KillKeepsTable(m, id); }
  }

  /** In every state of every run no two registered associations share a bound key. */
  lemma {:induction false} HistoryKeepsTable(ts: seq<Table>, ops: seq<Op>, i: nat)
    requires IsHistory(ts, ops) && i < |ts|
    ensures TableOk(ts[i])
  {
    if i == 0 {
    } else {
      HistoryKeepsTable(ts, ops, i - 1);
      assert ts[i] == After(ts[i - 1], ops[i - 1]);
      OpKeepsTable(ts[i - 1], ops[i - 1]);
    }
  }

  lemma OpKeepsClaim(m: Table, op: Op, id: nat)
    requires TableOk(m) && OpOk(m, op) && id in m && Claim(m[id]).Some? && op != Remove(id)
    ensures id in After(m, op) && Claim(After(m, op)[id]) == Claim(m[id])
  {
    if op.Find? && TableFind(m, op.source) == Some(id) {
      FindKeepsTable(m, id, op.source);
    }
  }

  /** Once an association has a key it keeps it until it is removed, and from then on it is
      found by sources of that key only. */
  lemma {:induction false} BindingIsStable(ts: seq<Table>, ops: seq<Op>, i: nat, j: nat, id: nat)
    requires IsHistory(ts, ops) && i <= j < |ts|
    requires id in ts[i] && Claim(ts[i][id]).Some?
    requires forall k {:trigger ops[k]} :: i <= k < j ==> ops[k] != Remove(id)
    ensures id in ts[j] && Claim(ts[j][id]) == Claim(ts[i][id])
    ensures forall source :: TableFind(ts[j], source) == Some(id) ==> Some(EndpointKey(source)) == Claim(ts[i][id])
    decreases j
  {
    if i == j {
    } else {
      BindingIsStable(ts, ops, i, j - 1, id);
      HistoryKeepsTable(ts, ops, j - 1);
      assert ts[j] == After(ts[j - 1], ops[j - 1]);
      OpKeepsClaim(ts[j - 1], ops[j - 1], id);
    }
  }

  /** Accepting a datagram binds: the next datagram from the same key finds the same
      association, as long as it lives. */
  lemma FindBinds(m: Table, source: SocketAddr, again: SocketAddr)
    requires TableOk(m) && TableFind(m, source).Some? && EndpointKey(again) == EndpointKey(source)
    ensures var id := TableFind(m, source).value;
            && Claim(TableAfterFind(m, source)[id]) == Some(EndpointKey(source))
            && TableFind(TableAfterFind(m, source), again) == Some(id)
  {
    var id := TableFind(m, source).value;
    var m' := TableAfterFind(m, source);
    FindKeepsTable(m, id, source);
    assert Owns(m', id, again);
    OwnerUnique(m', again, id, OwnerOf(m', again).value);
  }

  /** Removal frees exactly what the association held: its key or its waiting place. */
  lemma RemovalFrees(m: Table, id: nat, ip: IpAddr, port: u16)
    requires TableOk(m) && id in m
    ensures CanInsert(m - {id}, ip, port) <==>
      CanInsert(m, ip, port)
      || (port != 0 && Claim(m[id]) == Some(SocketAddr(Normalize(ip), port)))
      || (port == 0 && Waits(m[id], Normalize(ip)))
  {
    var m' := m - {id};
    assert forall i :: i in m' <==> i in m && i != id;
    assert forall i :: i in m' ==> m'[i] == m[i];
    var key := SocketAddr(Normalize(ip), port);
    if port == 0 {
      if k :| k in m && k != id && Waits(m[k], Normalize(ip)) { assert k in m' && Waits(m'[k], Normalize(ip)); }
    } else {
      if k :| k in m && k != id && Claim(m[k]) == Some(key) { assert k in m' && Claim(m'[k]) == Some(key); }
    }
  }
}
