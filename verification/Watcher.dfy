/** The deposit watcher (internal/deposits/deposits.go): pages backward to its cursor, processes
    forward, and advances the stored cursor by compare-and-set, with any number of replicas. */
module Watcher {
  import opened Common

  // ---------- the listed history ----------

  /** Oldest first. Signatures are distinct and never empty. */
  ghost predicate History(h: seq<string>) {
    "" !in h && forall i, j :: 0 <= i < j < |h| ==> h[i] != h[j]
  }

  function IndexOf(h: seq<string>, s: string): (i: nat)
    requires s in h
    ensures i < |h| && h[i] == s
  {
    if h[0] == s then 0 else IndexOf(h[1..], s) + 1
  }

  /** getSignaturesForAddress: newest first, at most limit, strictly older than before. */
  function Page(h: seq<string>, before: string, limit: nat): seq<string>
    requires before == "" || before in h
  {
    var end := if before == "" then |h| else IndexOf(h, before);
    Rev(h[Max(0, end - limit)..end])
  }

  datatype Listing = Failed(examined: nat) | Nothing(examined: nat) | Pending(sigs: seq<string>)

  /** What paging backward yields: the candidates newest first, or nothing at all after
      examining everything. */
  function Collected(h: seq<string>, cursor: string, limit: nat): Listing
    requires limit > 0
  {
    if h == [] then Nothing(0)
    else if cursor == "" then Pending(Rev(h[Max(0, |h| - limit)..]))
    else if cursor in h then Pending(Rev(h[IndexOf(h, cursor) + 1..]))
    else if |h| % limit == 0 then Nothing(|h|)
    else Pending(Rev(h))
  }

  lemma IndexIs(h: seq<string>, i: nat)
    requires History(h) && i < |h|
    ensures IndexOf(h, h[i]) == i
  {}

  /** A page older than a listed signature does not change when the chain grows. */
  lemma PageStable(h: seq<string>, h': seq<string>, before: string, limit: nat)
    requires History(h') && h <= h' && before in h
    ensures Page(h', before, limit) == Page(h, before, limit)
  {
    var i := IndexOf(h, before);
    assert h'[i] == before;
    IndexIs(h', i);
    IndexIs(h, i);
    assert h'[Max(0, i - limit)..i] == h[Max(0, i - limit)..i];
  }

  /** The history each call sees (None: the call failed) only grows. */
  ghost predicate Grows(calls: nat -> Option<seq<string>>) {
    && (forall i {:trigger calls(i)} :: calls(i).Some? ==> History(calls(i).value))
    && (forall i, j {:trigger calls(i), calls(j)} :: i <= j && calls(i).Some? && calls(j).Some? ==> calls(i).value <= calls(j).value)
  }

  /** The cursor's signature is not among those from index i on. */
  ghost predicate AllNewer(h: seq<string>, i: int, cursor: string) {
    forall j {:trigger h[j]} :: 0 <= j && i <= j < |h| ==> h[j] != cursor
  }

  /** The loop over one page: everything newer than the cursor, or the whole page. */
  method Scan(sigs: seq<string>, lastSig: string) returns (n: nat)
    ensures n <= |sigs| && lastSig !in sigs[..n] && (n < |sigs| ==> sigs[n] == lastSig)
  {
    n := 0;
    while n < |sigs| && sigs[n] != lastSig
      invariant n <= |sigs| && lastSig !in sigs[..n]
    {
      n := n + 1;
    }
  }

  /** Full pages fetched so far, and everything in them, newest first. */
  ghost predicate Paging(h: seq<string>, limit: nat, cursor: string, end: nat, pages: nat, before: string, pending: seq<string>) {
    && end <= |h| && |h| - end == FullPages(limit, pages)
    && pending == Rev(h[end..]) && AllNewer(h, end, cursor)
    && before == (if end == |h| then "" else h[end])
    && (end < |h| ==> cursor != "") && (end == |h| ==> pages == 0)
  }

  /** The first signature equal to the cursor is at position n of the page. */
  lemma PageStops(h: seq<string>, limit: nat, cursor: string, end: nat, low: nat, n: nat)
    requires limit > 0 && History(h) && low <= end <= |h| && AllNewer(h, end, cursor)
    requires var sigs := Rev(h[low..end]); n < |sigs| && sigs[n] == cursor && cursor !in sigs[..n]
    ensures Collected(h, cursor, limit) == Pending(Rev(h[end..]) + Rev(h[low..end])[..n])
  {
    Collects(h, low, end, n, cursor);
    assert h[end - 1 - n] == cursor;
    FoundCursor(h, cursor, limit, end - 1 - n);
  }

  lemma PageWhole(h: seq<string>, cursor: string, end: nat, low: nat)
    requires low <= end <= |h| && AllNewer(h, end, cursor) && cursor !in Rev(h[low..end])
    ensures Rev(h[end..]) + Rev(h[low..end]) == Rev(h[low..]) && AllNewer(h, low, cursor)
  {
    var sigs := Rev(h[low..end]);
    assert sigs[..end - low] == sigs;
    Collects(h, low, end, end - low, cursor);
  }

  /** Call k is the first that fails, after k full pages. */
  ghost predicate FailsAt(calls: nat -> Option<seq<string>>, limit: nat, k: nat, examined: nat) {
    calls(k).None? && (forall j: nat {:trigger calls(j)} | j < k :: calls(j).Some?) && examined == FullPages(limit, k)
  }

  /** The paging loop. Later pages may be fetched while the chain grows: the outcome is decided by the
      history the first call saw, unless a call fails. */
  method Collect(calls: nat -> Option<seq<string>>, lastSig: string, limit: nat) returns (r: Listing)
    requires limit > 0 && Grows(calls)
    ensures r.Failed? ==> exists k: nat :: FailsAt(calls, limit, k, r.examined)
    ensures !r.Failed? ==> calls(0).Some? && r == Collected(calls(0).value, lastSig, limit)
  {
    if calls(0).None? {
      assert FailsAt(calls, limit, 0, 0);
      return Failed(0);
    }
    ghost var h := calls(0).value;
    var before := "";
    var pending: seq<string> := [];
    var call: nat := 0;
    ghost var end: nat := |h|;
    while true
      invariant Paging(h, limit, lastSig, end, call, before, pending)
      invariant forall j: nat {:trigger calls(j)} | j < call :: calls(j).Some?
      decreases end
    {
      if calls(call).None? {
        assert FailsAt(calls, limit, call, |pending|);
        return Failed(|pending|);
      }
      ghost var low: nat := Max(0, end - limit);
      FetchedPage(h, calls(call).value, before, limit, end);
      var sigs := Page(calls(call).value, before, limit);
      assert sigs == Rev(h[low..end]);
      if sigs == [] {
        NothingLeft(h, lastSig, limit, end, call);
        return Nothing(|pending|);
      }
      var n := Scan(sigs, lastSig);
      if n < |sigs| {
        PageStops(h, limit, lastSig, end, low, n);
        return Pending(pending + sigs[..n]);
      }
      PageDone(h, limit, lastSig, end, call, before, pending, sigs);
      pending := pending + sigs;
      if |sigs| < limit || lastSig == "" { return Pending(pending); }
      before := sigs[|sigs| - 1];
      end, call := low, call + 1;
    }
  }

  /** A page without the cursor: either the last one, or paging goes on behind it. */
  lemma PageDone(h: seq<string>, limit: nat, cursor: string, end: nat, pages: nat, before: string, pending: seq<string>, sigs: seq<string>)
    requires limit > 0 && History(h) && Paging(h, limit, cursor, end, pages, before, pending)
    requires sigs == Rev(h[Max(0, end - limit)..end]) && sigs != [] && cursor !in sigs[..|sigs|]
    ensures |sigs| < limit || cursor == "" ==> Collected(h, cursor, limit) == Pending(pending + sigs)
    ensures |sigs| >= limit && cursor != "" ==>
              Max(0, end - limit) < end && Paging(h, limit, cursor, Max(0, end - limit), pages + 1, sigs[|sigs| - 1], pending + sigs)
  {
    var low := Max(0, end - limit);
    assert sigs[..|sigs|] == sigs;
    PageWhole(h, cursor, end, low);
    if |sigs| < limit || cursor == "" { LastPage(h, cursor, limit, end, low, pages); }
  }

  lemma FetchedPage(h: seq<string>, now: seq<string>, before: string, limit: nat, end: nat)
    requires History(h) && History(now) && h <= now && limit > 0 && end <= |h|
    requires before == (if end == |h| then "" else h[end])
    requires end == |h| ==> now == h
    ensures before == "" || before in now
    ensures Page(now, before, limit) == Rev(h[Max(0, end - limit)..end])
  {
    if end < |h| { LaterPage(h, now, before, limit, end); }
  }

  lemma LaterPage(h: seq<string>, now: seq<string>, before: string, limit: nat, end: nat)
    requires History(h) && History(now) && h <= now && limit > 0 && end < |h| && before == h[end]
    ensures before in now && Page(now, before, limit) == Rev(h[Max(0, end - limit)..end])
  {
    PageStable(h, now, before, limit);
    IndexIs(h, end);
  }

  lemma RevConcat(a: seq<string>, b: seq<string>)
    ensures Rev(a + b) == Rev(b) + Rev(a)
  {}

  lemma NewerAlso(h: seq<string>, low: nat, end: nat, n: nat, lastSig: string)
    requires low <= end <= |h| && n <= end - low && lastSig !in Rev(h[low..end])[..n] && AllNewer(h, end, lastSig)
    ensures AllNewer(h, end - n, lastSig)
  {
    var page := Rev(h[low..end]);
    forall i | end - n <= i < |h| ensures h[i] != lastSig {
      if i < end { assert page[..n][end - 1 - i] == page[end - 1 - i] == h[i]; }
    }
  }

  /** Taking n signatures of a page extends the candidates by n. */
  lemma Collects(h: seq<string>, low: nat, end: nat, n: nat, lastSig: string)
    requires low <= end <= |h| && n <= end - low && lastSig !in Rev(h[low..end])[..n] && AllNewer(h, end, lastSig)
    ensures Rev(h[end - n..]) == Rev(h[end..]) + Rev(h[low..end])[..n]
    ensures AllNewer(h, end - n, lastSig)
  {
    NewerAlso(h, low, end, n, lastSig);
    assert Rev(h[low..end])[..n] == Rev(h[end - n..end]);
    assert h[end - n..] == h[end - n..end] + h[end..];
    RevConcat(h[end - n..end], h[end..]);
  }

  /** The length of n full pages. */
  ghost function FullPages(limit: nat, n: nat): nat {
    if n == 0 then 0 else FullPages(limit, n - 1) + limit
  }

  lemma {:induction false} FullPagesIs(limit: nat, n: nat)
    ensures FullPages(limit, n) == limit * n
  {
    if n > 0 { FullPagesIs(limit, n - 1); }
  }

  lemma ModUnique(x: int, d: int, q: int, r: int)
    requires 0 <= r < d && x == d * q + r
    ensures x % d == r
  {
    var k := q - x / d;
    assert x == d * (x / d) + x % d;
    assert d * k == x % d - r;
    assert k >= 1 ==> d * k >= d;
    assert k <= -1 ==> d * k <= -d;
  }

  lemma NothingLeft(h: seq<string>, cursor: string, limit: nat, end: nat, pages: nat)
    requires limit > 0 && end <= |h| && |h| - end == FullPages(limit, pages) && AllNewer(h, end, cursor)
    requires Max(0, end - limit) == end && (end < |h| ==> cursor != "")
    ensures Collected(h, cursor, limit) == Nothing(|h|) && end == 0
  {
    assert end == 0 && h[0..] == h;
    FullPagesIs(limit, pages);
    ModUnique(|h|, limit, pages, 0);
  }

  lemma FoundCursor(h: seq<string>, cursor: string, limit: nat, i: nat)
    requires History(h) && limit > 0 && i < |h| && h[i] == cursor
    ensures Collected(h, cursor, limit) == Pending(Rev(h[i + 1..]))
  {
    IndexIs(h, i);
  }

  lemma LastPage(h: seq<string>, cursor: string, limit: nat, end: nat, low: nat, pages: nat)
    requires limit > 0 && end <= |h| && |h| - end == FullPages(limit, pages)
    requires low == Max(0, end - limit) && low < end && AllNewer(h, low, cursor) && (end < |h| ==> cursor != "")
    requires end - low < limit || cursor == ""
    ensures Collected(h, cursor, limit) == Pending(Rev(h[low..]))
  {
    if cursor != "" {
      assert low == 0 && h[0..] == h;
      FullPagesIs(limit, pages);
      ModUnique(|h|, limit, pages, end);
    }
  }

  /** With an established cursor that is still listed, exactly the later signatures are collected. */
  lemma CollectedAfterCursor(h: seq<string>, c: nat, limit: nat)
    requires History(h) && limit > 0 && c < |h|
    ensures Collected(h, h[c], limit) == Pending(Rev(h[c + 1..]))
  {
    IndexIs(h, c);
  }

  /** Without a cursor exactly the newest page is collected, newest first; of an empty history nothing. */
  lemma FirstRun(h: seq<string>, limit: nat)
    requires History(h) && limit > 0
    ensures h == [] ==> Collected(h, "", limit) == Nothing(0)
    ensures h != [] ==>
      && Collected(h, "", limit).Pending?
      && var sigs := Collected(h, "", limit).sigs;
         |sigs| == Min(limit, |h|) && forall i :: 0 <= i < |sigs| ==> sigs[i] == h[|h| - 1 - i]
  {}

  /** A cursor that left the listed history makes the pass collect nothing exactly when the history's
      length is a multiple of the page size; otherwise the whole history is replayed. */
  lemma LostCursor(h: seq<string>, cursor: string, limit: nat)
    requires History(h) && limit > 0 && cursor != "" && cursor !in h
    ensures Collected(h, cursor, limit) == Nothing(|h|) <==> |h| % limit == 0
    ensures |h| % limit != 0 ==> Collected(h, cursor, limit) == Pending(Rev(h))
  {
    assert h == [] ==> 0 % limit == 0;
  }
}
