/** The audit contract: an append-only ledger, an index by agent, and two paginated queries. */
module AuditLedger {

  const TWO_TO_THE_256: int := 0x1_0000000000000000_0000000000000000_0000000000000000_0000000000000000

  /** Checked 256-bit arithmetic: an overflow would revert, so it has to be shown not to happen. */
  newtype Word = x: int | 0 <= x < TWO_TO_THE_256

  datatype LedgerEntry = LedgerEntry(agent: string, encryptedPayload: string, payloadHash: string, timestamp: Word)

  const MAX_LIMIT: Word := 100

  // ---------------------------------------------------------------- what queries mean

  /** The positions of the entries that satisfy a condition, in ledger order. */
  ghost function Positions(entries: seq<LedgerEntry>, p: LedgerEntry -> bool): seq<nat> {
    if entries == [] then []
    else
      var n := |entries| - 1;
      Positions(entries[..n], p) + if p(entries[n]) then [n] else []
  }

  /** The entries that satisfy a condition, in ledger order. */
  ghost function Matches(entries: seq<LedgerEntry>, p: LedgerEntry -> bool): seq<LedgerEntry> {
    if entries == [] then []
    else
      var n := |entries| - 1;
      Matches(entries[..n], p) + if p(entries[n]) then [entries[n]] else []
  }

  function Min(a: nat, b: nat): nat {
    if a < b then a else b
  }

  /** The elements from offset on, at most limit of them. */
  ghost function Page<T>(s: seq<T>, offset: nat, limit: nat): seq<T> {
    s[Min(offset, |s|)..Min(offset + limit, |s|)]
  }

  /** What a page is, element by element. */
  lemma PageIs<T>(s: seq<T>, offset: nat, limit: nat, page: seq<T>)
    requires |page| == if |s| <= offset then 0 else Min(|s| - offset, limit)
    requires forall k :: 0 <= k < |page| ==> page[k] == s[offset + k]
    ensures page == Page(s, offset, limit)
  {
  }

  ghost function ByAgent(agent: string): LedgerEntry -> bool {
    (e: LedgerEntry) => e.agent == agent
  }

  predicate Within(e: LedgerEntry, startTime: Word, endTime: Word) {
    startTime <= e.timestamp && e.timestamp <= endTime
  }

  ghost function InRange(startTime: Word, endTime: Word): LedgerEntry -> bool {
    (e: LedgerEntry) => Within(e, startTime, endTime)
  }

  lemma {:induction false} PositionsIncrease(entries: seq<LedgerEntry>, p: LedgerEntry -> bool)
    ensures forall a :: 0 <= a < |Positions(entries, p)| ==> Positions(entries, p)[a] < |entries|
    ensures forall a, b :: 0 <= a < b < |Positions(entries, p)| ==> Positions(entries, p)[a] < Positions(entries, p)[b]
    decreases |entries|
  {
    if entries != [] {
      var n := |entries| - 1;
      PositionsIncrease(entries[..n], p);
    }
  }

  lemma {:induction false} PositionsHold(entries: seq<LedgerEntry>, p: LedgerEntry -> bool, i: nat)
    ensures i in Positions(entries, p) <==> i < |entries| && p(entries[i])
    decreases |entries|
  {
    if entries != [] {
      PositionsHold(entries[..|entries| - 1], p, i);
    }
  }

  /** Positions are strictly increasing, and hold exactly the indices of the matching entries. */
  lemma PositionsExact(entries: seq<LedgerEntry>, p: LedgerEntry -> bool)
    ensures var ps := Positions(entries, p);
            && (forall a, b :: 0 <= a < b < |ps| ==> ps[a] < ps[b])
            && (forall i: nat :: i in ps <==> i < |entries| && p(entries[i]))
  {
    PositionsIncrease(entries, p);
    forall i: nat {
      PositionsHold(entries, p, i);
    }
  }

  /** The matching entries are those at the matching positions. */
  lemma {:induction false} MatchesAtPositions(entries: seq<LedgerEntry>, p: LedgerEntry -> bool)
    ensures |Matches(entries, p)| == |Positions(entries, p)| <= |entries|
    ensures forall k :: 0 <= k < |Positions(entries, p)| ==>
              Positions(entries, p)[k] < |entries| && Matches(entries, p)[k] == entries[Positions(entries, p)[k]]
    decreases |entries|
  {
    if entries != [] {
      MatchesAtPositions(entries[..|entries| - 1], p);
    }
  }

  // ---------------------------------------------------------------- pages, entry by entry

  /** A page of the listed positions: as many entries as there are from the offset on, at most the limit. */
  ghost predicate IsPage(
      result: seq<LedgerEntry>, entries: seq<LedgerEntry>, positions: seq<nat>, offset: Word, limit: Word)
  {
    && (forall a, b :: 0 <= a < b < |positions| ==> positions[a] < positions[b])
    && |result| == (if |positions| <= offset as int then 0
                    else if |positions| - offset as int <= limit as int then |positions| - offset as int
                    else limit as int)
    && forall k :: 0 <= k < |result| ==>
         offset as int + k < |positions| && positions[offset as int + k] < |entries| &&
         result[k] == entries[positions[offset as int + k]]
  }

  /** A page over exactly an agent's entries, in ledger order. */
  ghost predicate AgentPage(
      result: seq<LedgerEntry>, entries: seq<LedgerEntry>, agent: string, offset: Word, limit: Word)
  {
    exists positions ::
      && IsPage(result, entries, positions, offset, limit)
      && forall i: nat :: i in positions <==> i < |entries| && entries[i].agent == agent
  }

  /** A page over exactly the entries of a range of times, both ends included, in ledger order. */
  ghost predicate TimePage(
      result: seq<LedgerEntry>, entries: seq<LedgerEntry>, startTime: Word, endTime: Word, offset: Word, limit: Word)
  {
    exists positions ::
      && IsPage(result, entries, positions, offset, limit)
      && forall i: nat ::
           i in positions <==> i < |entries| && startTime <= entries[i].timestamp && entries[i].timestamp <= endTime
  }

  lemma PageElements<T>(s: seq<T>, offset: nat, limit: nat)
    ensures var page := Page(s, offset, limit);
            && |page| == (if |s| <= offset then 0 else if |s| - offset <= limit then |s| - offset else limit)
            && forall k :: 0 <= k < |page| ==> offset + k < |s| && page[k] == s[offset + k]
  {
  }

  lemma PageOfMatches(
      entries: seq<LedgerEntry>, p: LedgerEntry -> bool, offset: Word, limit: Word, result: seq<LedgerEntry>)
    requires var n := |Matches(entries, p)|;
             |result| == if n <= offset as int then 0 else if n - offset as int <= limit as int then n - offset as int
                         else limit as int
    requires forall k :: 0 <= k < |result| ==> result[k] == Matches(entries, p)[offset as int + k]
    ensures IsPage(result, entries, Positions(entries, p), offset, limit)
  {
    MatchesAtPositions(entries, p);
    PositionsIncrease(entries, p);
  }

  lemma IsAgentPage(entries: seq<LedgerEntry>, agent: string, offset: Word, limit: Word, result: seq<LedgerEntry>)
    requires result == Page(Matches(entries, ByAgent(agent)), offset as nat, limit as nat)
    ensures AgentPage(result, entries, agent, offset, limit)
  {
    PageElements(Matches(entries, ByAgent(agent)), offset as nat, limit as nat);
    PageOfMatches(entries, ByAgent(agent), offset, limit, result);
    PositionsExact(entries, ByAgent(agent));
  }

  lemma IsTimePage(
      entries: seq<LedgerEntry>, startTime: Word, endTime: Word, offset: Word, limit: Word, result: seq<LedgerEntry>)
    requires result == Page(Matches(entries, InRange(startTime, endTime)), offset as nat, limit as nat)
    ensures TimePage(result, entries, startTime, endTime, offset, limit)
  {
    PageElements(Matches(entries, InRange(startTime, endTime)), offset as nat, limit as nat);
    PageOfMatches(entries, InRange(startTime, endTime), offset, limit, result);
    PositionsExact(entries, InRange(startTime, endTime));
  }

  /** Appending to the ledger only appends to its matches. */
  lemma {:induction false} MatchesGrow(entries: seq<LedgerEntry>, more: seq<LedgerEntry>, p: LedgerEntry -> bool)
    ensures Positions(entries, p) <= Positions(entries + more, p)
    ensures Matches(entries, p) <= Matches(entries + more, p)
    decreases |more|
  {
    if more == [] {
      assert entries + more == entries;
    } else {
      var all, init := entries + more, more[..|more| - 1];
      assert all[..|all| - 1] == entries + init;
      MatchesGrow(entries, init, p);
    }
  }

  /** The matches of the first entries are the first matches. */
  lemma MatchesPrefix(entries: seq<LedgerEntry>, i: nat, p: LedgerEntry -> bool)
    requires i <= |entries|
    ensures Matches(entries[..i], p) <= Matches(entries, p)
    ensures i == |entries| ==> Matches(entries[..i], p) == Matches(entries, p)
  {
    assert entries[..i] + entries[i..] == entries;
    MatchesGrow(entries[..i], entries[i..], p);
    assert i == |entries| ==> entries[..i] == entries;
  }

  lemma MatchesNext(entries: seq<LedgerEntry>, i: nat, p: LedgerEntry -> bool)
    requires i < |entries|
    ensures Matches(entries[..i + 1], p) == Matches(entries[..i], p) + if p(entries[i]) then [entries[i]] else []
    ensures |Matches(entries[..i], p)| <= i
  {
    assert entries[..i + 1][..i] == entries[..i];
    MatchesAtPositions(entries[..i], p);
  }

  /** How many of the first i entries are in the range. */
  ghost function Found(entries: seq<LedgerEntry>, startTime: Word, endTime: Word, i: nat): nat
    requires i <= |entries|
  {
    |Matches(entries[..i], InRange(startTime, endTime))|
  }

  /** The next entry, if it is in the range, is the next of all that are. */
  lemma NextInRange(entries: seq<LedgerEntry>, startTime: Word, endTime: Word, i: nat)
    requires i < |entries|
    ensures var n, all := Found(entries, startTime, endTime, i), Matches(entries, InRange(startTime, endTime));
            if startTime <= entries[i].timestamp && entries[i].timestamp <= endTime then
              Found(entries, startTime, endTime, i + 1) == n + 1 && n < |all| && all[n] == entries[i]
            else
              Found(entries, startTime, endTime, i + 1) == n
    ensures Found(entries, startTime, endTime, i) <= i
  {
    var p := InRange(startTime, endTime);
    MatchesNext(entries, i, p);
    MatchesPrefix(entries, i + 1, p);
  }

  lemma FoundAll(entries: seq<LedgerEntry>, startTime: Word, endTime: Word)
    ensures Found(entries, startTime, endTime, |entries|) == |Matches(entries, InRange(startTime, endTime))|
    ensures Found(entries, startTime, endTime, 0) == 0
  {
    assert entries[..|entries|] == entries;
  }

  // ---------------------------------------------------------------- the contract

  class Audit {
    var entries: seq<LedgerEntry>
    var entriesByAgent: map<string, seq<Word>>

    /** The index list of an agent; absent lists read as empty. */
    function Index(agent: string): seq<Word>
      reads this
    {
      if agent in entriesByAgent then entriesByAgent[agent] else []
    }

    /** The index list is the positions of the agent's entries. */
    ghost predicate IndexAgrees(agent: string)
      reads this
    {
      var ps := Positions(entries, ByAgent(agent));
      |Index(agent)| == |ps| && forall k :: 0 <= k < |ps| ==> Index(agent)[k] as int == ps[k]
    }

    /** The ledger's length is a word, and each agent's index list is exactly the positions of its entries. */
    ghost predicate Valid()
      reads this
    {
      && |entries| < TWO_TO_THE_256
      && forall agent :: IndexAgrees(agent)
    }

    /** An agent's index list is strictly increasing and holds exactly the positions of the agent's entries. */
    lemma IndexExact(agent: string)
      requires Valid()
      ensures forall a, b :: 0 <= a < b < |Index(agent)| ==> Index(agent)[a] < Index(agent)[b]
      ensures forall i: Word :: i in Index(agent) <==> i as int < |entries| && entries[i].agent == agent
    {
      assert IndexAgrees(agent);
      var ps := Positions(entries, ByAgent(agent));
      PositionsExact(entries, ByAgent(agent));
      forall i: Word
        ensures i in Index(agent) <==> i as nat in ps
      {
        if i as nat in ps {
          var k :| 0 <= k < |ps| && ps[k] == i as nat;
          assert Index(agent)[k] == i;
        }
      }
    }

    constructor ()
      ensures Valid() && entries == []
    {
      entries, entriesByAgent := [], map[];
    }

    /** Append an entry and its index; reverts when the ledger's length would no longer be a word. */
    method RecordEntry(agent: string, encryptedPayload: string, payloadHash: string, blockTimestamp: Word)
      returns (reverted: bool)
      requires Valid()
      modifies this
      ensures Valid()
      ensures reverted == (old(|entries|) == TWO_TO_THE_256 - 1)
      ensures reverted ==> unchanged(this)
      ensures !reverted ==>
                entries == old(entries) + [LedgerEntry(agent, encryptedPayload, payloadHash, blockTimestamp)]
    {
      if |entries| == TWO_TO_THE_256 - 1 {
        return true;
      }
      var entry := LedgerEntry(agent, encryptedPayload, payloadHash, blockTimestamp);
      var entryIndex := |entries| as Word;
      entries := entries + [entry];
      entriesByAgent := entriesByAgent[agent := Index(agent) + [entryIndex]];
      assert entries[..|entries| - 1] == old(entries);
      forall a
        ensures IndexAgrees(a)
      {
        assert old(IndexAgrees(a));
      }
      return false;
    }

    method GetAgentEntryCount(agent: string) returns (count: Word)
      requires Valid()
      ensures count as int == |Matches(entries, ByAgent(agent))|
    {
      assert IndexAgrees(agent);
      MatchesAtPositions(entries, ByAgent(agent));
      return |Index(agent)| as Word;
    }

    /** One page of an agent's entries. */
    method GetEntriesByAgent(agent: string, offset: Word, limit: Word)
      returns (reverted: bool, result: array<LedgerEntry>)
      requires Valid()
      ensures reverted == (limit > 100)
      ensures !reverted ==> AgentPage(result[..], entries, agent, offset, limit)
      ensures !reverted ==> result[..] == Page(Matches(entries, ByAgent(agent)), offset as nat, limit as nat)
    {
      if limit > MAX_LIMIT {
        result := new LedgerEntry[0];
        return true, result;
      }
      assert IndexAgrees(agent);
      ghost var all := Matches(entries, ByAgent(agent));
      MatchesAtPositions(entries, ByAgent(agent));
      var indices := Index(agent);
      var length := |indices| as Word;
      var available := if length > offset then length - offset else 0;
      var count := if available > limit then limit else available;
      result := new LedgerEntry[count];
      var i: Word := 0;
      while i < count
        invariant i <= count
        invariant forall k :: 0 <= k < i as int ==> result[k] == all[offset as int + k]
      {
        result[i] := entries[indices[offset + i]];
        i := i + 1;
      }
      PageIs(all, offset as nat, limit as nat, result[..]);
      IsAgentPage(entries, agent, offset, limit, result[..]);
      return false, result;
    }

    /** The first pass of the scan. */
    method CountInRange(startTime: Word, endTime: Word) returns (count: Word)
      requires |entries| < TWO_TO_THE_256
      ensures count as int == |Matches(entries, InRange(startTime, endTime))|
    {
      FoundAll(entries, startTime, endTime);
      count := 0;
      var i: Word := 0;
      while i < |entries| as Word
        invariant i as int <= |entries|
        invariant count as int == Found(entries, startTime, endTime, i as nat) && count <= i
      {
        NextInRange(entries, startTime, endTime, i as nat);
        if entries[i].timestamp >= startTime && entries[i].timestamp <= endTime {
          count := count + 1;
        }
        i := i + 1;
      }
    }

    /** The second pass of the scan: skip offset matches, then fill the result, stopping as soon as it is full. */
    method CollectInRange(startTime: Word, endTime: Word, offset: Word, resultCount: Word)
      returns (result: array<LedgerEntry>)
      requires |entries| < TWO_TO_THE_256
      requires resultCount != 0 ==>
                 offset as int + resultCount as int <= |Matches(entries, InRange(startTime, endTime))|
      ensures |result[..]| == resultCount as int
      ensures forall k :: 0 <= k < resultCount as int ==>
                result[..][k] == Matches(entries, InRange(startTime, endTime))[offset as int + k]
    {
      ghost var all := Matches(entries, InRange(startTime, endTime));
      FoundAll(entries, startTime, endTime);
      result := new LedgerEntry[resultCount];
      var resultIdx: Word := 0;
      var matchIdx: Word := 0;
      var i: Word := 0;
      var length := |entries| as Word;
      while i < length && resultIdx < resultCount
        invariant i <= length && resultIdx <= resultCount
        invariant matchIdx as int == Found(entries, startTime, endTime, i as nat)
        invariant resultIdx as int == if matchIdx <= offset then 0 else matchIdx as int - offset as int
        invariant forall k :: 0 <= k < resultIdx as int ==>
                    offset as int + k < |all| && result[k] == all[offset as int + k]
      {
        NextInRange(entries, startTime, endTime, i as nat);
        if entries[i].timestamp >= startTime && entries[i].timestamp <= endTime {
          if matchIdx >= offset {
            result[resultIdx] := entries[i];
            resultIdx := resultIdx + 1;
          }
          matchIdx := matchIdx + 1;
        }
        i := i + 1;
      }
    }

    /** One page of the entries in a time range: count the matches, then collect those of the page. */
    method GetEntriesByTimeRange(startTime: Word, endTime: Word, offset: Word, limit: Word)
      returns (reverted: bool, result: array<LedgerEntry>)
      requires Valid()
      ensures reverted == (limit > 100 || startTime > endTime)
      ensures !reverted ==> TimePage(result[..], entries, startTime, endTime, offset, limit)
      ensures !reverted ==>
                result[..] == Page(Matches(entries, InRange(startTime, endTime)), offset as nat, limit as nat)
    {
      if limit > MAX_LIMIT || startTime > endTime {
        result := new LedgerEntry[0];
        return true, result;
      }
      var count := CountInRange(startTime, endTime);
      var available := if count > offset then count - offset else 0;
      var resultCount := if available > limit then limit else available;
      result := CollectInRange(startTime, endTime, offset, resultCount);
      IsTimePage(entries, startTime, endTime, offset, limit, result[..]);
      return false, result;
    }
  }
}
