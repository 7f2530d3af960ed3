/** Keyset paging of an account's ledger (ListLedger in internal/store/billing.go), each cursor going
    through its byte codec between pages. */
module Paging {
  import opened Common
  import opened Cursors

  datatype Entry = Entry(account: string, at: int64, id: int64, delta: int)

  function Key(e: Entry): LedgerCursor {
    LedgerCursor(e.at, e.id)
  }

  /** (created_at, id) < (created_at, id). */
  predicate Less(a: LedgerCursor, b: LedgerCursor) {
    a.at < b.at || (a.at == b.at && a.id < b.id)
  }

  /** Ids are globally unique. */
  ghost predicate UniqueIds(rows: set<Entry>) {
    forall a, b | a in rows && b in rows && a.id == b.id :: a == b
  }

  predicate Matches(e: Entry, account: string, cursor: Option<LedgerCursor>) {
    e.account == account && (cursor.Some? ==> Less(Key(e), cursor.value))
  }

  function ClampLimit(limit: int): (n: nat)
    ensures 1 <= n <= 500
  {
    if limit <= 0 || limit > 500 then 100 else limit
  }

  predicate Descending(out: seq<Entry>) {
    forall i, j :: 0 <= i < j < |out| ==> Less(Key(out[j]), Key(out[i]))
  }

  /** What SELECT .. WHERE .. ORDER BY created_at DESC, id DESC LIMIT n may return. */
  ghost predicate Selects(rows: set<Entry>, account: string, cursor: Option<LedgerCursor>, n: nat, out: seq<Entry>) {
    && Descending(out) && |out| <= n
    && (forall e | e in out :: e in rows && Matches(e, account, cursor))
    && (forall e | e in rows && Matches(e, account, cursor) && e !in out ::
          |out| == n && forall x | x in out :: Less(Key(e), Key(x)))
  }

  function NextCursor(out: seq<Entry>, n: nat): Option<LedgerCursor> {
    if |out| == n && n > 0 then Some(Key(out[|out| - 1])) else None
  }

  /** The chain of pages a client follows; it passes each cursor back as it got it. */
  ghost predicate Follows(rows: set<Entry>, account: string, cursor: Option<LedgerCursor>, limit: int, pages: seq<seq<Entry>>)
    decreases |pages|
  {
    && pages != [] && Selects(rows, account, cursor, ClampLimit(limit), pages[0])
    && match NextCursor(pages[0], ClampLimit(limit))
       case None => |pages| == 1
       case Some(c) => Follows(rows, account, DecodeLedger(EncodeLedger(c)), limit, pages[1..])
  }

  function Flatten(pages: seq<seq<Entry>>): seq<Entry> {
    if pages == [] then [] else pages[0] + Flatten(pages[1..])
  }

  /** After a full page, what is below its last row is exactly what it left out. */
  lemma BelowLast(rows: set<Entry>, account: string, cursor: Option<LedgerCursor>, n: nat, out: seq<Entry>, e: Entry)
    requires n > 0 && |out| == n && Selects(rows, account, cursor, n, out) && e in rows
    ensures Matches(e, account, Some(Key(out[n - 1]))) <==> Matches(e, account, cursor) && e !in out
  {
    assert out[n - 1] in out;
    if e in out {
      var i :| 0 <= i < n && out[i] == e;
    }
  }

  /** Concatenated, the pages are the account's rows, each exactly once, newest first. */
  lemma {:induction false} PagesAreComplete(rows: set<Entry>, account: string, cursor: Option<LedgerCursor>, limit: int, pages: seq<seq<Entry>>)
    requires Follows(rows, account, cursor, limit, pages)
    ensures Descending(Flatten(pages))
    ensures forall e :: e in Flatten(pages) <==> e in rows && Matches(e, account, cursor)
    decreases |pages|
  {
    var n, out := ClampLimit(limit), pages[0];
    if |out| == n {
      LedgerRoundTrip(Key(out[n - 1]));
      PagesAreComplete(rows, account, Some(Key(out[n - 1])), limit, pages[1..]);
      var rest := Flatten(pages[1..]);
      forall e ensures e in out + rest <==> e in rows && Matches(e, account, cursor) {
        if e in rows { BelowLast(rows, account, cursor, n, out, e); }
      }
      forall i, j | 0 <= i < j < |out + rest| ensures Less(Key((out + rest)[j]), Key((out + rest)[i])) {
        if i < n <= j {
          assert rest[j - n] in rest;
          assert out[n - 1] == out[i] || Less(Key(out[n - 1]), Key(out[i]));
        }
      }
    } else {
      assert Flatten(pages) == out + Flatten(pages[1..]) && pages[1..] == [];
    }
  }

  ghost function Below(rows: set<Entry>, account: string, cursor: Option<LedgerCursor>): set<Entry> {
    set e | e in rows && Matches(e, account, cursor)
  }

  /** Pages followed so far, finished or not. */
  ghost predicate Chain(rows: set<Entry>, account: string, cursor: Option<LedgerCursor>, limit: int, pages: seq<seq<Entry>>)
    decreases |pages|
  {
    pages == [] ||
      (&& Selects(rows, account, cursor, ClampLimit(limit), pages[0])
       && match NextCursor(pages[0], ClampLimit(limit))
          case None => |pages| == 1
          case Some(c) => Chain(rows, account, DecodeLedger(EncodeLedger(c)), limit, pages[1..]))
  }

  /** Every chain ends: all pages but the last are full, so there are at most rows / limit + 1. */
  lemma {:induction false} ChainEnds(rows: set<Entry>, account: string, cursor: Option<LedgerCursor>, limit: int, pages: seq<seq<Entry>>)
    requires Chain(rows, account, cursor, limit, pages) && pages != []
    ensures (|pages| - 1) * ClampLimit(limit) <= |Below(rows, account, cursor)|
    decreases |pages|
  {
    var n := ClampLimit(limit);
    if |pages| > 1 {
      var out := pages[0];
      var c := Some(Key(out[n - 1]));
      LedgerRoundTrip(c.value);
      ChainEnds(rows, account, c, limit, pages[1..]);
      PageRemoved(rows, account, cursor, n, out);
      OneMore(|pages| - 2, n);
    }
  }

  lemma OneMore(k: int, n: int)
    ensures (k + 1) * n == k * n + n
  {}

  lemma PageRemoved(rows: set<Entry>, account: string, cursor: Option<LedgerCursor>, n: nat, out: seq<Entry>)
    requires n > 0 && |out| == n && Selects(rows, account, cursor, n, out)
    ensures |Below(rows, account, cursor)| == |Below(rows, account, Some(Key(out[n - 1])))| + n
  {
    var c := Some(Key(out[n - 1]));
    var page := set e | e in out;
    PageSize(out);
    forall e | e in rows ensures Matches(e, account, c) <==> Matches(e, account, cursor) && e !in out {
      BelowLast(rows, account, cursor, n, out, e);
    }
    assert Below(rows, account, cursor) == Below(rows, account, c) + page;
    assert Below(rows, account, c) !! page;
  }

  lemma {:induction false} PageSize(out: seq<Entry>)
    requires Descending(out)
    ensures |set e | e in out| == |out|
  {
    if out != [] {
      var init, last := out[..|out| - 1], out[|out| - 1];
      PageSize(init);
      assert out == init + [last];
      assert last !in init;
      var rest := set e | e in init;
      assert (set e | e in out) == rest + {last} && last !in rest;
    }
  }

  // ---------- there always is a page ----------

  lemma {:induction false} NewestExists(s: set<Entry>) returns (e: Entry)
    requires s != {} && UniqueIds(s)
    ensures e in s && forall x | x in s && x != e :: Less(Key(x), Key(e))
    decreases |s|
  {
    e :| e in s;
    if s != {e} {
      var rest := s - {e};
      var m := NewestExists(rest);
      if Less(Key(e), Key(m)) { e := m; }
    }
  }

  /** The query is defined: some page satisfies it, whatever the rows. */
  lemma {:induction false} PageExists(rows: set<Entry>, account: string, cursor: Option<LedgerCursor>, n: nat) returns (out: seq<Entry>)
    requires UniqueIds(rows)
    ensures Selects(rows, account, cursor, n, out)
    decreases n
  {
    var s := Below(rows, account, cursor);
    if n == 0 || s == {} {
      out := [];
      assert forall e :: e in rows && Matches(e, account, cursor) ==> e in s;
    } else {
      var e := NewestExists(s);
      assert Matches(e, account, cursor);
      var rest := PageExists(rows, account, Some(Key(e)), n - 1);
      out := [e] + rest;
      PageGrows(rows, account, cursor, n, e, rest);
    }
  }

  lemma PageGrows(rows: set<Entry>, account: string, cursor: Option<LedgerCursor>, n: nat, e: Entry, rest: seq<Entry>)
    requires n > 0 && e in rows && Matches(e, account, cursor) && Selects(rows, account, Some(Key(e)), n - 1, rest)
    requires forall x | x in rows && Matches(x, account, cursor) && x != e :: Less(Key(x), Key(e))
    ensures Selects(rows, account, cursor, n, [e] + rest)
  {
    var out := [e] + rest;
    forall i, j | 0 <= i < j < |out| ensures Less(Key(out[j]), Key(out[i])) {
      assert out[j] == rest[j - 1] && rest[j - 1] in rest;
    }
    forall x | x in out ensures x in rows && Matches(x, account, cursor) {
      assert x == e || x in rest;
    }
    forall x | x in rows && Matches(x, account, cursor) && x !in out ensures |out| == n && forall y | y in out :: Less(Key(x), Key(y)) {
      assert x != e && x !in rest;
      forall y | y in out ensures Less(Key(x), Key(y)) {
        assert y == e || y in rest;
      }
    }
  }
}
