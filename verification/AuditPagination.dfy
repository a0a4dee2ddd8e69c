/** Reading a whole query page by page while the ledger keeps growing. */
module AuditPagination {
  import opened AuditLedger

  ghost predicate StrictlyIncreasing(s: seq<nat>) {
    forall a, b :: 0 <= a < b < |s| ==> s[a] < s[b]
  }

  /** Each list is a prefix of every later one, and all are strictly increasing. */
  ghost predicate GrowingLists(lists: seq<seq<nat>>) {
    && (forall j :: 0 <= j < |lists| ==> StrictlyIncreasing(lists[j]))
    && (forall i, j :: 0 <= i <= j < |lists| ==> lists[i] <= lists[j])
  }

  /** One page from each list in turn, each starting where a full page before it would have ended. */
  ghost function ReadLists(lists: seq<seq<nat>>, offset: nat, limit: nat): seq<nat> {
    if lists == [] then []
    else Page(lists[0], offset, limit) + ReadLists(lists[1..], offset + limit, limit)
  }

  /** An element read stands at or after the offset in one of the lists. */
  lemma {:induction false} ReadFromOffset(lists: seq<seq<nat>>, offset: nat, limit: nat, x: nat)
      returns (j: nat, k: nat)
    requires x in ReadLists(lists, offset, limit)
    ensures j < |lists| && offset <= k < |lists[j]| && lists[j][k] == x
    decreases |lists|
  {
    var page := Page(lists[0], offset, limit);
    if x in page {
      var i :| 0 <= i < |page| && page[i] == x;
      return 0, offset + i;
    } else {
      j, k := ReadFromOffset(lists[1..], offset + limit, limit, x);
      return j + 1, k;
    }
  }

  lemma PageAt<T>(s: seq<T>, offset: nat, limit: nat, i: nat)
    requires i < |Page(s, offset, limit)|
    ensures offset + i < |s| && Page(s, offset, limit)[i] == s[offset + i]
    ensures i < limit
  {
  }

  /** What later pages return comes after what the first page returns. */
  lemma PageBeforeRest(lists: seq<seq<nat>>, offset: nat, limit: nat, i: nat, y: nat)
    requires lists != [] && GrowingLists(lists)
    requires i < |Page(lists[0], offset, limit)| && y in ReadLists(lists[1..], offset + limit, limit)
    ensures Page(lists[0], offset, limit)[i] < y
  {
    PageAt(lists[0], offset, limit, i);
    var j, k := ReadFromOffset(lists[1..], offset + limit, limit, y);
    var first, later := lists[0], lists[j + 1];
    assert first <= later && StrictlyIncreasing(later);
    assert later[offset + i] == first[offset + i] && later[k] == y;
  }

  lemma PageIncreases(s: seq<nat>, offset: nat, limit: nat)
    requires StrictlyIncreasing(s)
    ensures StrictlyIncreasing(Page(s, offset, limit))
  {
  }

  lemma IncreasingParts(a: seq<nat>, b: seq<nat>)
    requires StrictlyIncreasing(a) && StrictlyIncreasing(b)
    requires forall i, y :: 0 <= i < |a| && y in b ==> a[i] < y
    ensures StrictlyIncreasing(a + b)
  {
    forall i, j | 0 <= i < j < |a + b|
      ensures (a + b)[i] < (a + b)[j]
    {
      if i < |a| <= j {
        assert b[j - |a|] in b;
      }
    }
  }

  lemma {:induction false} ReadIncreasing(lists: seq<seq<nat>>, offset: nat, limit: nat)
    requires GrowingLists(lists)
    ensures StrictlyIncreasing(ReadLists(lists, offset, limit))
    decreases |lists|
  {
    if lists != [] {
      var page, rest := Page(lists[0], offset, limit), ReadLists(lists[1..], offset + limit, limit);
      ReadIncreasing(lists[1..], offset + limit, limit);
      PageIncreases(lists[0], offset, limit);
      forall i, y | 0 <= i < |page| && y in rest
        ensures page[i] < y
      {
        PageBeforeRest(lists, offset, limit, i, y);
      }
      IncreasingParts(page, rest);
    }
  }

  /** The length of n full pages, n * limit. */
  function Span(n: nat, limit: nat): nat {
    if n == 0 then 0 else limit + Span(n - 1, limit)
  }

  lemma {:induction false} SpanIs(n: nat, limit: nat)
    ensures Span(n, limit) == n * limit
  {
    if n != 0 {
      SpanIs(n - 1, limit);
      assert n * limit == (n - 1) * limit + limit;
    }
  }

  /** A page of a longer list, against the shorter one: all of it, when the shorter one fills it. */
  lemma FullPage(base: seq<nat>, list: seq<nat>, offset: nat, limit: nat)
    requires base <= list && offset + limit <= |base|
    ensures base[offset..] == Page(list, offset, limit) + base[offset + limit..]
  {
    assert list[..|base|] == base;
  }

  lemma LastPage(base: seq<nat>, list: seq<nat>, offset: nat, limit: nat)
    requires base <= list && offset <= |base| < offset + limit
    ensures base[offset..] <= Page(list, offset, limit)
  {
  }

  /** Enough pages return everything the first list held from the offset on, first and in order. */
  lemma {:induction false} ReadComplete(lists: seq<seq<nat>>, offset: nat, limit: nat, base: seq<nat>)
    requires GrowingLists(lists) && (lists != [] ==> base <= lists[0])
    requires offset <= |base| <= offset + Span(|lists|, limit)
    ensures base[offset..] <= ReadLists(lists, offset, limit)
    decreases |lists|
  {
    if lists != [] {
      if offset + limit <= |base| {
        assert lists[1..] != [] ==> lists[0] <= lists[1];
        ReadComplete(lists[1..], offset + limit, limit, base);
        FullPage(base, lists[0], offset, limit);
      } else {
        LastPage(base, lists[0], offset, limit);
      }
    }
  }

  // ---------------------------------------------------------------- ledgers

  /** The ledger at successive reads: each version extends the ones before. */
  ghost predicate Growing(versions: seq<seq<LedgerEntry>>) {
    forall i, j :: 0 <= i <= j < |versions| ==> versions[i] <= versions[j]
  }

  ghost function PositionLists(versions: seq<seq<LedgerEntry>>, p: LedgerEntry -> bool): seq<seq<nat>> {
    seq(|versions|, k requires 0 <= k < |versions| => Positions(versions[k], p))
  }

  lemma PositionListsGrow(versions: seq<seq<LedgerEntry>>, p: LedgerEntry -> bool)
    requires Growing(versions)
    ensures GrowingLists(PositionLists(versions, p))
  {
    forall j | 0 <= j < |versions|
      ensures StrictlyIncreasing(Positions(versions[j], p))
    {
      PositionsExact(versions[j], p);
    }
    forall i, j | 0 <= i <= j < |versions|
      ensures Positions(versions[i], p) <= Positions(versions[j], p)
    {
      MatchesGrow(versions[i], versions[j][|versions[i]|..], p);
      assert versions[i] + versions[j][|versions[i]|..] == versions[j];
    }
  }

  /** The pages of a query at offsets 0, L, 2L, ..., each read from the ledger as it then stood. */
  ghost function ReadPages(versions: seq<seq<LedgerEntry>>, p: LedgerEntry -> bool, offset: nat, limit: nat)
    : seq<LedgerEntry>
  {
    if versions == [] then []
    else Page(Matches(versions[0], p), offset, limit) + ReadPages(versions[1..], p, offset + limit, limit)
  }

  /** These are the entries of a ledger at these positions. */
  ghost predicate At(es: seq<LedgerEntry>, positions: seq<nat>, ledger: seq<LedgerEntry>) {
    && |es| == |positions|
    && forall k :: 0 <= k < |positions| ==> positions[k] < |ledger| && es[k] == ledger[positions[k]]
  }

  lemma AtAppend(
      a: seq<LedgerEntry>, b: seq<LedgerEntry>, pa: seq<nat>, pb: seq<nat>, ledger: seq<LedgerEntry>)
    requires At(a, pa, ledger) && At(b, pb, ledger)
    ensures At(a + b, pa + pb, ledger)
  {
  }

  lemma PageAtPositions(
      version: seq<LedgerEntry>, p: LedgerEntry -> bool, offset: nat, limit: nat, last: seq<LedgerEntry>)
    requires version <= last
    ensures At(Page(Matches(version, p), offset, limit), Page(Positions(version, p), offset, limit), last)
  {
    MatchesAtPositions(version, p);
  }

  lemma ReadFirstPositions(versions: seq<seq<LedgerEntry>>, p: LedgerEntry -> bool, offset: nat, limit: nat)
    requires versions != []
    ensures ReadLists(PositionLists(versions, p), offset, limit) ==
            Page(Positions(versions[0], p), offset, limit) +
            ReadLists(PositionLists(versions[1..], p), offset + limit, limit)
  {
    assert PositionLists(versions, p)[1..] == PositionLists(versions[1..], p);
  }

  /** The pages read are the entries at the positions read. */
  lemma {:induction false} PagesAreAtPositions(
      versions: seq<seq<LedgerEntry>>, p: LedgerEntry -> bool, offset: nat, limit: nat, last: seq<LedgerEntry>)
    requires forall i :: 0 <= i < |versions| ==> versions[i] <= last
    ensures At(ReadPages(versions, p, offset, limit), ReadLists(PositionLists(versions, p), offset, limit), last)
    decreases |versions|
  {
    if versions != [] {
      PageAtPositions(versions[0], p, offset, limit, last);
      ReadFirstPositions(versions, p, offset, limit);
      PagesAreAtPositions(versions[1..], p, offset + limit, limit, last);
      AtAppend(Page(Matches(versions[0], p), offset, limit), ReadPages(versions[1..], p, offset + limit, limit),
               Page(Positions(versions[0], p), offset, limit),
               ReadLists(PositionLists(versions[1..], p), offset + limit, limit), last);
    }
  }

  /** What is read beyond the initial matches was recorded after the start. */
  lemma LaterReadsAreNew(versions: seq<seq<LedgerEntry>>, p: LedgerEntry -> bool, limit: nat, k: nat)
    requires versions != [] && Growing(versions)
    requires var read := ReadLists(PositionLists(versions, p), 0, limit);
             Positions(versions[0], p) <= read && StrictlyIncreasing(read) && |Positions(versions[0], p)| <= k < |read|
    ensures |versions[0]| <= ReadLists(PositionLists(versions, p), 0, limit)[k]
  {
    var lists := PositionLists(versions, p);
    var base, read := Positions(versions[0], p), ReadLists(lists, 0, limit);
    var j, i := ReadFromOffset(lists, 0, limit, read[k]);
    PositionsExact(versions[j], p);
    PositionsExact(versions[0], p);
    assert read[k] in lists[j];
    assert versions[0] <= versions[j];
    assert forall a :: 0 <= a < |base| ==> base[a] == read[a];
    assert read[k] !in base;
  }

  /** Reading pages 0, L, 2L, ... of either query yields every entry that matched at the start, exactly once and in
      order, even if entries are recorded between the reads; anything more was recorded after the start, and comes
      once and in order too. */
  lemma PaginationCompleteAndStable(versions: seq<seq<LedgerEntry>>, p: LedgerEntry -> bool, limit: nat)
    requires versions != [] && Growing(versions)
    requires |Positions(versions[0], p)| <= |versions| * limit
    ensures var first, last := versions[0], versions[|versions| - 1];
            var read := ReadLists(PositionLists(versions, p), 0, limit);
            && Positions(first, p) <= read && StrictlyIncreasing(read)
            && (forall k :: |Positions(first, p)| <= k < |read| ==> |first| <= read[k])
            && Matches(first, p) <= ReadPages(versions, p, 0, limit)
            && At(ReadPages(versions, p, 0, limit), read, last)
  {
    var first, last := versions[0], versions[|versions| - 1];
    var lists := PositionLists(versions, p);
    var base, read := Positions(first, p), ReadLists(lists, 0, limit);
    PositionListsGrow(versions, p);
    ReadIncreasing(lists, 0, limit);
    SpanIs(|versions|, limit);
    ReadComplete(lists, 0, limit, base);
    assert base[0..] == base;
    PagesAreAtPositions(versions, p, 0, limit, last);
    MatchesAtPositions(first, p);
    forall k | |base| <= k < |read|
      ensures |first| <= read[k]
    {
      LaterReadsAreNew(versions, p, limit, k);
    }
  }

  // ---------------------------------------------------------------- a client of the contract

  datatype Query = OfAgent(agent: string) | OfTimes(startTime: Word, endTime: Word)

  ghost function Condition(query: Query): LedgerEntry -> bool {
    match query
    case OfAgent(agent) => ByAgent(agent)
    case OfTimes(startTime, endTime) => InRange(startTime, endTime)
  }

  predicate Accepted(query: Query, limit: Word) {
    limit <= MAX_LIMIT && (query.OfTimes? ==> query.startTime <= query.endTime)
  }

  lemma FirstOfMorePages(
      versions: seq<seq<LedgerEntry>>, last: seq<LedgerEntry>, p: LedgerEntry -> bool, offset: nat, limit: nat)
    requires versions != []
    ensures ReadPages(versions + [last], p, offset, limit) ==
            Page(Matches(versions[0], p), offset, limit) + ReadPages(versions[1..] + [last], p, offset + limit, limit)
  {
    assert (versions + [last])[1..] == versions[1..] + [last];
  }

  /** Reading one page more, at the offset where the pages before it end. */
  lemma {:induction false} ReadPagesLast(
      versions: seq<seq<LedgerEntry>>, last: seq<LedgerEntry>, p: LedgerEntry -> bool,
      offset: nat, limit: nat, end: nat)
    requires end == offset + Span(|versions|, limit)
    ensures ReadPages(versions + [last], p, offset, limit) ==
            ReadPages(versions, p, offset, limit) + Page(Matches(last, p), end, limit)
    decreases |versions|
  {
    if versions == [] {
      assert versions + [last] == [last];
      assert ReadPages([last][1..], p, offset + limit, limit) == [];
    } else {
      FirstOfMorePages(versions, last, p, offset, limit);
      ReadPagesLast(versions[1..], last, p, offset + limit, limit, end);
    }
  }

  /** A page that is not the last starts within the pages. */
  lemma {:induction false} OffsetFits(n: nat, pages: nat, limit: nat)
    requires n < pages
    ensures Span(n, limit) + limit <= Span(pages, limit)
  {
    if n + 1 < pages {
      OffsetFits(n, pages - 1, limit);
    }
  }

  lemma GrowingMore(versions: seq<seq<LedgerEntry>>, last: seq<LedgerEntry>)
    requires versions != [] && Growing(versions) && versions[|versions| - 1] <= last
    ensures Growing(versions + [last])
  {
    var all := versions + [last];
    forall i, j | 0 <= i <= j < |all|
      ensures all[i] <= all[j]
    {
      if i < |versions| {
        assert versions[i] <= versions[|versions| - 1];
      }
    }
  }

  lemma GrowingLess(versions: seq<seq<LedgerEntry>>, last: seq<LedgerEntry>)
    requires Growing(versions + [last])
    ensures Growing(versions)
  {
    var all := versions + [last];
    forall i, j | 0 <= i <= j < |versions|
      ensures versions[i] <= versions[j]
    {
      assert all[i] <= all[j];
    }
  }

  /** Enough pages return what matched at the start. */
  lemma ReadEnough(versions: seq<seq<LedgerEntry>>, last: seq<LedgerEntry>, p: LedgerEntry -> bool, limit: nat)
    requires Growing(versions + [last])
    ensures var first := (versions + [last])[0];
            |Matches(first, p)| <= |versions| * limit ==> Matches(first, p) <= ReadPages(versions, p, 0, limit)
  {
    var first := (versions + [last])[0];
    MatchesAtPositions(first, p);
    if versions != [] && |Matches(first, p)| <= |versions| * limit {
      GrowingLess(versions, last);
      PaginationCompleteAndStable(versions, p, limit);
    }
  }

  /** One page of a query. */
  method ReadPage(audit: Audit, query: Query, offset: Word, limit: Word) returns (page: seq<LedgerEntry>)
    requires audit.Valid() && Accepted(query, limit)
    ensures page == Page(Matches(audit.entries, Condition(query)), offset as nat, limit as nat)
  {
    match query {
      case OfAgent(agent) =>
        var reverted, result := audit.GetEntriesByAgent(agent, offset, limit);
        return result[..];
      case OfTimes(startTime, endTime) =>
        var reverted, result := audit.GetEntriesByTimeRange(startTime, endTime, offset, limit);
        return result[..];
    }
  }

  /** Entries recorded by others. */
  method RecordEach(audit: Audit, records: seq<LedgerEntry>)
    requires audit.Valid()
    modifies audit
    ensures audit.Valid() && old(audit.entries) <= audit.entries
  {
    for i := 0 to |records|
      invariant audit.Valid() && old(audit.entries) <= audit.entries
    {
      var e := records[i];
      var reverted := audit.RecordEntry(e.agent, e.encryptedPayload, e.payloadHash, e.timestamp);
    }
  }

  /** Read a query page by page from the contract while others record entries after each page. */
  method ReadAll(audit: Audit, query: Query, limit: Word, pages: nat, records: nat -> seq<LedgerEntry>)
      returns (read: seq<LedgerEntry>, ghost versions: seq<seq<LedgerEntry>>)
    requires audit.Valid() && Accepted(query, limit) && pages * (limit as nat) < TWO_TO_THE_256
    modifies audit
    ensures audit.Valid() && old(audit.entries) <= audit.entries
    ensures |versions| == pages && Growing(versions + [audit.entries])
    ensures (versions + [audit.entries])[0] == old(audit.entries)
    ensures read == ReadPages(versions, Condition(query), 0, limit as nat)
    ensures |Matches(old(audit.entries), Condition(query))| <= pages * (limit as nat) ==>
              Matches(old(audit.entries), Condition(query)) <= read
  {
    ghost var p := Condition(query);
    var offset := 0;
    read, versions := [], [];
    SpanIs(pages, limit as nat);
    for n := 0 to pages
      invariant audit.Valid() && old(audit.entries) <= audit.entries
      invariant |versions| == n && offset == Span(n, limit as nat) && Growing(versions + [audit.entries])
      invariant (versions + [audit.entries])[0] == old(audit.entries)
      invariant read == ReadPages(versions, p, 0, limit as nat)
    {
      OffsetFits(n, pages, limit as nat);
      var page := ReadPage(audit, query, offset as Word, limit);
      ReadPagesLast(versions, audit.entries, p, 0, limit as nat, offset);
      read := read + page;
      versions := versions + [audit.entries];
      RecordEach(audit, records(n));
      GrowingMore(versions, audit.entries);
      offset := offset + limit as nat;
    }
    ReadEnough(versions, audit.entries, p, limit as nat);
  }
}
