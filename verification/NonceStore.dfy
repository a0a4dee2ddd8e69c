/** The nonce store: one map of nonces per agent, cleaned in place. */
module NonceStore {
  import opened CanonicalPayload

  type Nonces = map<string, Timestamp>

  type Store = map<string, Nonces>

  const EXPIRY_SECONDS: int := 300

  /** A stored nonce is dropped by a cleanup at this time; every comparison with NaN is false. */
  predicate Expired(expiry: int, now: int, timestamp: Timestamp) {
    timestamp.Seconds? && now - timestamp.value > expiry
  }

  /** An agent and a nonce. */
  type Key = (string, string)

  /** The nested maps seen as one flat map. */
  ghost function Flat(store: Store): imap<Key, Timestamp> {
    imap k: Key | k.0 in store && k.1 in store[k.0] :: store[k.0][k.1]
  }

  /** The keys of the flat map, as a finite set. */
  ghost function Keys(store: Store): set<Key> {
    set a <- store.Keys, n <- store[a].Keys :: (a, n)
  }

  /** No agent is kept without nonces. */
  ghost predicate NoEmptyAgent(store: Store) {
    forall a <- store :: store[a] != map[]
  }

  /** What a cleanup must leave of a flat store. */
  ghost function Unexpired(flat: imap<Key, Timestamp>, expiry: int, now: int): imap<Key, Timestamp> {
    imap k | k in flat && !Expired(expiry, now, flat[k]) :: flat[k]
  }

  /** What a cleanup must leave of one agent's nonces. */
  ghost function UnexpiredNonces(nonces: Nonces, expiry: int, now: int): Nonces {
    map n | n in nonces && !Expired(expiry, now, nonces[n]) :: nonces[n]
  }

  /** An agent's nonces after a cleanup, or no entry when none is left. */
  ghost predicate Cleaned(before: Store, after: Store, agent: string, now: int)
    requires agent in before
  {
    var kept := UnexpiredNonces(before[agent], EXPIRY_SECONDS, now);
    if kept == map[] then agent !in after else agent in after && after[agent] == kept
  }

  lemma CleanedFlat(before: Store, after: Store, now: int)
    requires after.Keys <= before.Keys && forall a <- before :: Cleaned(before, after, a, now)
    ensures NoEmptyAgent(after) && Flat(after) == Unexpired(Flat(before), EXPIRY_SECONDS, now)
  {
    forall k: Key
      ensures k in Flat(after) <==> k in Unexpired(Flat(before), EXPIRY_SECONDS, now)
      ensures k in Flat(after) ==> Flat(after)[k] == Flat(before)[k]
    {
      if k.0 in before {
        assert Cleaned(before, after, k.0, now);
        var kept := UnexpiredNonces(before[k.0], EXPIRY_SECONDS, now);
        assert k in Unexpired(Flat(before), EXPIRY_SECONDS, now) <==> k.1 in kept;
      }
    }
  }

  /** One agent's keys. */
  ghost function Row(agent: string, nonces: set<string>): set<Key> {
    set n <- nonces :: (agent, n)
  }

  lemma {:induction false} RowSize(agent: string, nonces: set<string>)
    ensures |Row(agent, nonces)| == |nonces|
    decreases nonces
  {
    if nonces != {} {
      var n :| n in nonces;
      var rest := nonces - {n};
      RowSize(agent, rest);
      assert Row(agent, nonces) == Row(agent, rest) + {(agent, n)};
    }
  }

  lemma UnionSize(all: set<Key>, a: set<Key>, b: set<Key>)
    requires forall k :: k in all <==> k in a || k in b
    requires forall k :: !(k in a && k in b)
    ensures |all| == |a| + |b|
  {
    assert all == a + b;
  }

  lemma InKeys(store: Store, k: Key)
    ensures k in Keys(store) <==> k.0 in store && k.1 in store[k.0]
  {
  }

  lemma KeysGrow(store: Store, agent: string, nonces: Nonces)
    requires agent !in store
    ensures |Keys(store[agent := nonces])| == |Keys(store)| + |nonces|
  {
    RowSize(agent, nonces.Keys);
    forall k: Key
      ensures k in Keys(store[agent := nonces]) <==> k in Keys(store) || k in Row(agent, nonces.Keys)
      ensures !(k in Keys(store) && k in Row(agent, nonces.Keys))
    {
      InKeys(store, k);
      InKeys(store[agent := nonces], k);
    }
    UnionSize(Keys(store[agent := nonces]), Keys(store), Row(agent, nonces.Keys));
  }

  /** With no empty agent, the agents are those of the flat store. */
  lemma AgentsOfKeys(store: Store)
    requires NoEmptyAgent(store)
    ensures (set k <- Keys(store) :: k.0) == store.Keys
    ensures forall k: Key :: k in Keys(store) <==> k in Flat(store)
  {
    forall a <- store.Keys
      ensures a in (set k <- Keys(store) :: k.0)
    {
      var n :| n in store[a];
      assert (a, n) in Keys(store);
    }
  }

  class NonceValidator {
    var nonceStore: Store

    ghost predicate Valid()
      reads this
    {
      NoEmptyAgent(nonceStore)
    }

    constructor ()
      ensures Valid() && Flat(nonceStore) == imap[]
    {
      nonceStore := map[];
    }

    /** Refuse a nonce the agent has used, otherwise remember it. */
    method ValidateAndStore(agent: string, nonce: string, timestamp: Timestamp) returns (ok: bool)
      requires Valid()
      modifies this
      ensures Valid()
      ensures ok == ((agent, nonce) !in old(Flat(nonceStore)))
      ensures Flat(nonceStore) ==
              if ok then old(Flat(nonceStore))[(agent, nonce) := timestamp] else old(Flat(nonceStore))
    {
      var agentNonces := if agent in nonceStore then nonceStore[agent] else map[];
      if nonce in agentNonces {
        return false;
      }
      agentNonces := agentNonces[nonce := timestamp];
      nonceStore := nonceStore[agent := agentNonces];
      return true;
    }

    /** The inner loop of a cleanup: delete an agent's expired nonces one by one. */
    method CleanNonces(stored: Nonces, now: int) returns (nonces: Nonces)
      ensures nonces == UnexpiredNonces(stored, EXPIRY_SECONDS, now)
    {
      nonces := stored;
      var keys := stored.Keys;
      while keys != {}
        invariant keys <= nonces.Keys
        invariant nonces == map n | n in stored && (n in keys || !Expired(EXPIRY_SECONDS, now, stored[n])) :: stored[n]
      {
        var nonce :| nonce in keys;
        if Expired(EXPIRY_SECONDS, now, nonces[nonce]) {
          nonces := nonces - {nonce};
        }
        keys := keys - {nonce};
      }
    }

    /** Drop every expired nonce, and every agent left without one. */
    method Cleanup(now: int)
      requires Valid()
      modifies this
      ensures Valid()
      ensures Flat(nonceStore) == Unexpired(old(Flat(nonceStore)), EXPIRY_SECONDS, now)
    {
      var agents := nonceStore.Keys;
      while agents != {}
        invariant agents <= nonceStore.Keys <= old(nonceStore).Keys
        invariant forall a <- agents :: nonceStore[a] == old(nonceStore)[a]
        invariant forall a <- old(nonceStore).Keys - agents :: Cleaned(old(nonceStore), nonceStore, a, now)
      {
        var agent :| agent in agents;
        var nonces := CleanNonces(nonceStore[agent], now);
        ghost var earlier := nonceStore;
        if |nonces| == 0 {
          nonceStore := nonceStore - {agent};
        } else {
          nonceStore := nonceStore[agent := nonces];
        }
        assert Cleaned(old(nonceStore), nonceStore, agent, now);
        forall a <- old(nonceStore).Keys - agents
          ensures Cleaned(old(nonceStore), nonceStore, a, now)
        {
          assert Cleaned(old(nonceStore), earlier, a, now);
        }
        agents := agents - {agent};
      }
      CleanedFlat(old(nonceStore), nonceStore, now);
    }

    /** Count agents and nonces. */
    method GetMetrics() returns (totalAgents: nat, totalNonces: nat)
      requires Valid()
      ensures totalNonces == |Keys(nonceStore)| && forall k: Key :: k in Keys(nonceStore) <==> k in Flat(nonceStore)
      ensures totalAgents == |set k <- Keys(nonceStore) :: k.0|
    {
      totalAgents, totalNonces := |nonceStore.Keys|, 0;
      var agents := nonceStore.Keys;
      ghost var counted: Store := map[];
      while agents != {}
        invariant agents <= nonceStore.Keys && counted.Keys == nonceStore.Keys - agents
        invariant forall a <- counted :: counted[a] == nonceStore[a]
        invariant totalNonces == |Keys(counted)|
      {
        var agent :| agent in agents;
        KeysGrow(counted, agent, nonceStore[agent]);
        counted := counted[agent := nonceStore[agent]];
        totalNonces := totalNonces + |nonceStore[agent]|;
        agents := agents - {agent};
      }
      assert counted == nonceStore;
      AgentsOfKeys(nonceStore);
    }
  }
}
