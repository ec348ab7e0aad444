/**
 * `InMemoryRealtimeConnectionRegistry`: a map from session keys to mutable sets of connection ids. A lease
 * captures the set it was added to, while the map finds sets by session key, so releasing is safe only as
 * long as both name the same object.
 */
module ConnectionRegistry {
  import opened Common
  import opened RealtimeProtocol

  /** A set of connection ids, made for one session. */
  class ConnectionSet {
    var members: set<string>
    ghost const sessionKey: string

    constructor (ghost sessionKey: string)
      ensures members == {} && this.sessionKey == sessionKey
    {
      members, this.sessionKey := {}, sessionKey;
    }
  }

  /** What `acquire` returns; `current` is the set captured by its `release`, `holder` says who asked. */
  class Lease {
    const connectionId: string
    const sessionKey: string
    const current: ConnectionSet
    ghost const holder: Req
    var released: bool

    constructor (connectionId: string, sessionKey: string, current: ConnectionSet, ghost holder: Req)
      ensures this.connectionId == connectionId && this.sessionKey == sessionKey
      ensures this.current == current && this.holder == holder && !released
    {
      this.connectionId, this.sessionKey, this.current, this.holder := connectionId, sessionKey, current, holder;
      released := false;
    }
  }

  lemma {:induction false} BijectionSize(m: map<string, Req>, rs: set<Req>)
    requires forall id <- m :: m[id] in rs
    requires forall r <- rs :: exists id :: id in m && m[id] == r
    requires forall id, id' | id in m && id' in m && m[id] == m[id'] :: id == id'
    ensures |m.Keys| == |rs|
    decreases rs
  {
    if rs == {} {
      assert m.Keys == {};
    } else {
      var r :| r in rs;
      var id :| id in m && m[id] == r;
      var rest := m - {id};
      forall q | q in rs - {r} ensures exists i :: i in rest && rest[i] == q {
        var i :| i in m && m[i] == q;
        assert i in rest && rest[i] == q;
      }
      BijectionSize(rest, rs - {r});
      assert m.Keys == rest.Keys + {id};
    }
  }

  /** For each session key the ids mapped for it, each with the holder of its lease. */
  type Table = map<string, map<string, Req>>

  ghost predicate Listed(table: Table, r: Req, lease: Held) {
    && lease.sessionKey in table
    && lease.connectionId in table[lease.sessionKey]
    && table[lease.sessionKey][lease.connectionId] == r
  }

  /** The row of a session is not empty and lists only leases of that session. */
  ghost predicate RowOk(row: map<string, Req>, k: string, held: map<Req, Held>) {
    row != map[] && forall id {:trigger row[id]} | id in row :: row[id] in held && held[row[id]] == Held(k, id)
  }

  /** The table and the ledger of leases say the same. */
  ghost predicate Consistent(table: Table, held: map<Req, Held>) {
    && (forall r {:trigger Listed(table, r, held[r])} | r in held :: Listed(table, r, held[r]))
    && (forall k {:trigger RowOk(table[k], k, held)} | k in table :: RowOk(table[k], k, held))
  }

  function RowOf(table: Table, k: string): map<string, Req> { if k in table then table[k] else map[] }

  lemma AddConsistent(table: Table, held: map<Req, Held>, k: string, id: string, r: Req)
    requires Consistent(table, held) && r !in held && id !in RowOf(table, k)
    ensures Consistent(table[k := RowOf(table, k)[id := r]], held[r := Held(k, id)])
  {
    var table' := table[k := RowOf(table, k)[id := r]];
    var held' := held[r := Held(k, id)];
    forall l | l in table' ensures RowOk(table'[l], l, held') {
      if l in table { assert RowOk(table[l], l, held); }
    }
    forall q | q in held' ensures Listed(table', q, held'[q]) {
      if q != r { assert Listed(table, q, held[q]); }
    }
  }

  /** An id that no lease of the session has is not mapped for it. */
  lemma NewId(table: Table, held: map<Req, Held>, k: string, id: string)
    requires Consistent(table, held) && forall r <- Holders(held, k) :: held[r].connectionId != id
    ensures id !in RowOf(table, k)
  {
    assert k in table ==> RowOk(table[k], k, held);
    forall j | j in RowOf(table, k) ensures j != id {
      assert table[k][j] in Holders(held, k);
    }
  }

  function WithoutId(table: Table, k: string, id: string): Table
    requires k in table
  {
    if table[k] - {id} == map[] then table - {k} else table[k := table[k] - {id}]
  }

  lemma RemoveConsistent(table: Table, held: map<Req, Held>, r: Req)
    requires Consistent(table, held) && r in held
    ensures held[r].sessionKey in table
    ensures Consistent(WithoutId(table, held[r].sessionKey, held[r].connectionId), held - {r})
  {
    var k, id := held[r].sessionKey, held[r].connectionId;
    assert Listed(table, r, held[r]) && RowOk(table[k], k, held);
    var table', held' := WithoutId(table, k, id), held - {r};
    forall q | q in held' ensures Listed(table', q, held'[q]) {
      assert Listed(table, q, held[q]);
      if held[q].sessionKey == k {
        assert held[q].connectionId in table[k] - {id};
      }
    }
    forall l | l in table' ensures RowOk(table'[l], l, held') { assert RowOk(table[l], l, held); }
  }

  /** A session has as many ids as leases. */
  lemma RowSize(table: Table, held: map<Req, Held>, k: string)
    requires Consistent(table, held)
    ensures |RowOf(table, k).Keys| == |Holders(held, k)|
  {
    var row := RowOf(table, k);
    forall r | r in Holders(held, k) ensures exists id :: id in row && row[id] == r {
      assert Listed(table, r, held[r]);
      assert row[held[r].connectionId] == r;
    }
    assert k in table ==> RowOk(table[k], k, held);
    BijectionSize(row, Holders(held, k));
  }

  /** Adding an id to the set of a session keeps the count of its leases right exactly when the set lacks the id. */
  lemma FreshIdNeeded(table: Table, held: map<Req, Held>, k: string, id: string, r: Req)
    requires Consistent(table, held) && r !in held
    ensures |RowOf(table, k).Keys + {id}| == |Holders(held[r := Held(k, id)], k)| <==> id !in RowOf(table, k)
  {
    RowSize(table, held, k);
    assert Holders(held[r := Held(k, id)], k) == Holders(held, k) + {r};
    if id in RowOf(table, k) { assert RowOf(table, k).Keys + {id} == RowOf(table, k).Keys; }
  }

  /** The holders of leases of other sessions than these. */
  ghost function Elsewhere(held: map<Req, Held>, keys: set<string>): set<Req> {
    set r | r in held && held[r].sessionKey !in keys
  }

  lemma NoneElsewhere(table: Table, held: map<Req, Held>)
    requires Consistent(table, held)
    ensures Elsewhere(held, table.Keys) == {}
  {
    forall r | r in held ensures held[r].sessionKey in table { assert Listed(table, r, held[r]); }
  }

  lemma ElsewhereMore(held: map<Req, Held>, keys: set<string>, k: string)
    requires k in keys
    ensures |Elsewhere(held, keys - {k})| == |Elsewhere(held, keys)| + |Holders(held, k)|
  {
    assert Elsewhere(held, keys - {k}) == Elsewhere(held, keys) + Holders(held, k);
    assert Elsewhere(held, keys) !! Holders(held, k);
  }

  lemma ElsewhereAll(held: map<Req, Held>)
    ensures |Elsewhere(held, {})| == |held|
  {
    assert Elsewhere(held, {}) == held.Keys;
  }

  /** Between two moments leases were given back, but none changed hands. */
  ghost predicate OnlyFewer(before: map<Req, Lease>, after: map<Req, Lease>) {
    forall r <- after :: r in before && before[r] == after[r]
  }

  /**
   * What the proofs know of a registry: the leases not yet released by holder, what they are leases of, the
   * same by session and id, every set ever made and every lease ever granted.
   */
  datatype Ledger = Ledger(
    leases: map<Req, Lease>,
    held: map<Req, Held>,
    table: Table,
    sets: set<ConnectionSet>,
    granted: set<Lease>)

  class InMemoryRegistry {
    var connections: map<string, ConnectionSet>
    ghost var ledger: Ledger

    /** The leases not yet released, by holder. */
    ghost function View(): map<Req, Held>
      reads this
    {
      ledger.held
    }

    /** A lease not yet released captured the very set its session key maps to. */
    ghost predicate Captured(r: Req)
      reads this, ledger.granted
      requires r in ledger.leases
    {
      ledger.leases[r] in ledger.granted &&
      var lease := ledger.leases[r];
      && !lease.released
      && lease.holder == r
      && r in ledger.held && ledger.held[r] == Held(lease.sessionKey, lease.connectionId)
      && lease.sessionKey in connections
      && connections[lease.sessionKey] == lease.current
    }

    ghost predicate Mapped(k: string)
      reads this, ledger.sets
      requires k in connections
    {
      && connections[k] in ledger.sets && k in ledger.table
      && connections[k].members == ledger.table[k].Keys && connections[k].sessionKey == k
    }

    ghost predicate Valid()
      reads this, ledger.sets, ledger.granted
    {
      && Consistent(ledger.table, ledger.held)
      && ledger.table.Keys == connections.Keys
      && ledger.held.Keys == ledger.leases.Keys
      && (forall k {:trigger Mapped(k)} | k in connections :: Mapped(k))
      && (forall r {:trigger Captured(r)} | r in ledger.leases :: Captured(r))
    }

    /** Since the old state nothing was granted and no lease changed hands; some may have been given back. */
    twostate predicate OnlyReleased()
      reads this
    {
      && ledger.sets == old(ledger.sets) && ledger.granted == old(ledger.granted)
      && OnlyFewer(old(ledger.leases), ledger.leases)
    }

    /** Since the old state the objects behind the registry have grown by new ones only. */
    twostate predicate Grown()
      reads this
    {
      && (forall ids {:trigger ids in ledger.sets} | ids in ledger.sets :: ids in old(ledger.sets) || fresh(ids))
      && (forall lease {:trigger lease in ledger.granted} | lease in ledger.granted ::
            lease in old(ledger.granted) || fresh(lease))
    }

    constructor ()
      ensures Valid() && ledger == Ledger(map[], map[], map[], {}, {})
    {
      connections := map[];
      ledger := Ledger(map[], map[], map[], {}, {});
    }

    /** `acquire`; `newId` is what the id factory returns, or nothing if it throws. */
    method Acquire(sessionKey: string, limit: nat, newId: Option<string>, ghost holder: Req)
      returns (grant: Grant, lease: Lease?)
      requires Valid() && holder !in View()
      requires newId.Some? ==> forall r <- Holders(View(), sessionKey) :: View()[r].connectionId != newId.value
      modifies this, ledger.sets
      ensures Valid() && fresh(ledger.sets - old(ledger.sets)) && fresh(ledger.granted - old(ledger.granted))
      ensures old(ledger.sets) <= ledger.sets && old(ledger.granted) <= ledger.granted
      ensures grant == if |Holders(old(View()), sessionKey)| >= limit then Refused
                       else if newId.None? then Failed else Granted(newId.value)
      ensures lease != null <==> grant.Granted?
      ensures grant.Granted? ==> fresh(lease) && ledger.leases == old(ledger.leases)[holder := lease]
                                 && View() == old(View())[holder := Held(sessionKey, newId.value)]
      ensures !grant.Granted? ==> ledger.leases == old(ledger.leases) && View() == old(View())
    {
      RowSize(ledger.table, ledger.held, sessionKey);
      lease := null;
      var current := CurrentSet(sessionKey);
      if |current.members| >= limit {
        grant := Refused;
      } else if newId.None? {
        grant := Failed;
      } else {
        NewId(ledger.table, ledger.held, sessionKey, newId.value);
        lease := Add(sessionKey, newId.value, holder, current);
        grant := Granted(newId.value);
      }
    }

    /** The set mapped for a session, or a new one. */
    method CurrentSet(sessionKey: string) returns (current: ConnectionSet)
      requires Valid()
      ensures current.sessionKey == sessionKey && current.members == RowOf(ledger.table, sessionKey).Keys
      ensures if sessionKey in connections then current == connections[sessionKey] && current in ledger.sets
              else fresh(current)
    {
      if sessionKey in connections {
        current := connections[sessionKey];
        assert Mapped(sessionKey);
      } else {
        current := new ConnectionSet(sessionKey);
      }
    }

    /** The assignments of `acquire`. */
    method Enter(sessionKey: string, id: string, ghost holder: Req, current: ConnectionSet) returns (lease: Lease)
      modifies this, current
      ensures fresh(lease) && !lease.released
      ensures lease.connectionId == id && lease.sessionKey == sessionKey
      ensures lease.current == current && lease.holder == holder
      ensures current.members == old(current.members) + {id}
      ensures connections == old(connections)[sessionKey := current]
      ensures ledger == Ledger(old(ledger.leases)[holder := lease],
                               old(ledger.held)[holder := Held(sessionKey, id)],
                               old(ledger.table)[sessionKey := RowOf(old(ledger.table), sessionKey)[id := holder]],
                               old(ledger.sets) + {current},
                               old(ledger.granted) + {lease})
    {
      lease := new Lease(id, sessionKey, current, holder);
      current.members := current.members + {id};
      connections := connections[sessionKey := current];
      ledger := Ledger(ledger.leases[holder := lease],
                       ledger.held[holder := Held(sessionKey, id)],
                       ledger.table[sessionKey := RowOf(ledger.table, sessionKey)[id := holder]],
                       ledger.sets + {current},
                       ledger.granted + {lease});
    }

    /** The part of `acquire` that takes effect. */
    method Add(sessionKey: string, id: string, ghost holder: Req, current: ConnectionSet) returns (lease: Lease)
      requires Valid() && holder !in View() && id !in RowOf(ledger.table, sessionKey)
      requires current.sessionKey == sessionKey && current.members == RowOf(ledger.table, sessionKey).Keys
      requires sessionKey in connections ==> current == connections[sessionKey]
      modifies this, current
      ensures Valid() && fresh(lease)
      ensures ledger.sets == old(ledger.sets) + {current} && ledger.granted == old(ledger.granted) + {lease}
      ensures ledger.leases == old(ledger.leases)[holder := lease]
      ensures View() == old(View())[holder := Held(sessionKey, id)]
    {
      AddConsistent(ledger.table, ledger.held, sessionKey, id, holder);
      lease := Enter(sessionKey, id, holder, current);
      forall k | k in connections ensures Mapped(k) { assert k != sessionKey ==> old(Mapped(k)); }
      forall r | r in ledger.leases ensures Captured(r) { assert r != holder ==> old(Captured(r)); }
    }

    /** `release`, which does something only the first time. */
    method Release(lease: Lease)
      requires Valid()
      requires lease.released || (lease.holder in ledger.leases && ledger.leases[lease.holder] == lease)
      modifies this, lease, lease.current
      ensures Valid() && lease.released
      ensures ledger.sets == old(ledger.sets) && ledger.granted == old(ledger.granted)
      ensures ledger.leases == if old(lease.released) then old(ledger.leases) else old(ledger.leases) - {lease.holder}
      ensures View() == if old(lease.released) then old(View()) else old(View()) - {lease.holder}
    {
      if !lease.released {
        ReleaseOnce(lease);
      }
    }

    /** The assignments of `release`. */
    method Leave(lease: Lease)
      requires lease.sessionKey in ledger.table
      modifies this, lease, lease.current
      ensures lease.released
      ensures lease.current.members == old(lease.current.members) - {lease.connectionId}
      ensures connections ==
              if lease.current.members == {} then old(connections) - {lease.sessionKey} else old(connections)
      ensures ledger == old(ledger).(leases := old(ledger.leases) - {lease.holder},
                                     held := old(ledger.held) - {lease.holder},
                                     table := WithoutId(old(ledger.table), lease.sessionKey, lease.connectionId))
    {
      lease.released := true;
      lease.current.members := lease.current.members - {lease.connectionId};
      if lease.current.members == {} {
        connections := connections - {lease.sessionKey};
      }
      ledger := ledger.(leases := ledger.leases - {lease.holder},
                        held := ledger.held - {lease.holder},
                        table := WithoutId(ledger.table, lease.sessionKey, lease.connectionId));
    }

    method ReleaseOnce(lease: Lease)
      requires Valid() && !lease.released
      requires lease.holder in ledger.leases && ledger.leases[lease.holder] == lease
      modifies this, lease, lease.current
      ensures Valid() && lease.released
      ensures ledger.sets == old(ledger.sets) && ledger.granted == old(ledger.granted)
      ensures ledger.leases == old(ledger.leases) - {lease.holder} && View() == old(View()) - {lease.holder}
    {
      RemoveConsistent(ledger.table, ledger.held, lease.holder);
      assert Captured(lease.holder) && Mapped(lease.sessionKey);
      Leave(lease);
      forall k | k in connections ensures Mapped(k) { assert old(Mapped(k)); }
      forall r | r in ledger.leases ensures Captured(r) {
        assert old(Captured(r));
        assert Listed(ledger.table, r, ledger.held[r]);
      }
    }

    /** `activeCount` is the number of leases not released. */
    method ActiveCount() returns (total: nat)
      requires Valid()
      ensures total == |View()|
    {
      total := 0;
      var keys := connections.Keys;
      ghost var held := ledger.held;
      NoneElsewhere(ledger.table, held);
      while keys != {}
        invariant keys <= connections.Keys
        invariant total == |Elsewhere(held, keys)|
      {
        var k :| k in keys;
        RowSize(ledger.table, held, k);
        ElsewhereMore(held, keys, k);
        assert Mapped(k);
        total := total + |connections[k].members|;
        keys := keys - {k};
      }
      ElsewhereAll(held);
    }
  }
}
