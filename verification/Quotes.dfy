/** The market gate's routing set (internal/billinggate/gate.go): live, billable, affordable peers,
    sorted by insertion and capped. */
module Quotes {
  import opened Common
  import opened Billing

  const MAX_ALLOWED_PEERS := 128

  // ---------- the order ----------

  /** Go's string order. */
  predicate StrLess(a: string, b: string) {
    b != "" && (a == "" || a[0] < b[0] || (a[0] == b[0] && StrLess(a[1..], b[1..])))
  }

  lemma {:induction false} StrTotal(a: string, b: string)
    ensures !(StrLess(a, b) && StrLess(b, a))
    ensures a == b || StrLess(a, b) || StrLess(b, a)
  {
    if a != "" && b != "" && a[0] == b[0] {
      StrTotal(a[1..], b[1..]);
      assert a == [a[0]] + a[1..] && b == [b[0]] + b[1..];
    }
  }

  lemma {:induction false} StrTransitive(a: string, b: string, c: string)
    requires StrLess(a, b) && StrLess(b, c)
    ensures StrLess(a, c)
  {
    if a != "" && a[0] == b[0] == c[0] { StrTransitive(a[1..], b[1..], c[1..]); }
  }

  lemma StrIrreflexive(a: string)
    ensures !StrLess(a, a)
  {
    StrTotal(a, a);
  }

  /** Cheapest input rate first, then by peer id. */
  predicate Before(x: Quote, y: Quote) {
    x.inRate < y.inRate || (x.inRate == y.inRate && StrLess(x.peer, y.peer))
  }

  predicate NotAfter(x: Quote, y: Quote) {
    !Before(y, x)
  }

  lemma BeforeNotAfter(x: Quote, y: Quote)
    requires Before(x, y)
    ensures NotAfter(x, y)
  {
    StrTotal(x.peer, y.peer);
  }

  lemma NotAfterTransitive(x: Quote, y: Quote, z: Quote)
    requires NotAfter(x, y) && NotAfter(y, z)
    ensures NotAfter(x, z)
  {
    StrTotal(x.peer, y.peer);
    StrTotal(y.peer, z.peer);
    StrTotal(z.peer, x.peer);
    if z.peer != x.peer && StrLess(z.peer, x.peer) {
      if StrLess(x.peer, y.peer) { StrTransitive(z.peer, x.peer, y.peer); }
    }
  }

  lemma Antisymmetric(x: Quote, y: Quote)
    requires NotAfter(x, y) && NotAfter(y, x)
    ensures x.peer == y.peer
  {
    StrTotal(x.peer, y.peer);
  }

  predicate Sorted(s: seq<Quote>) {
    forall i, j :: 0 <= i < j < |s| ==> NotAfter(s[i], s[j])
  }

  // ---------- insertion sort ----------

  /** The first i + 1 are in order, but for the one at j, which may still have to move down. */
  predicate Sifting(s: seq<Quote>, j: nat, i: nat) {
    i < |s| && forall k, l :: 0 <= k < l <= i && l != j ==> NotAfter(s[k], s[l])
  }

  lemma SwapKeeps(s: seq<Quote>, j: nat, i: nat)
    requires Sifting(s, j, i) && 0 < j <= i && Before(s[j], s[j - 1])
    ensures Sifting(s[j := s[j - 1]][j - 1 := s[j]], j - 1, i)
    ensures multiset(s[j := s[j - 1]][j - 1 := s[j]]) == multiset(s)
  {
    BeforeNotAfter(s[j], s[j - 1]);
  }

  lemma SiftDone(s: seq<Quote>, j: nat, i: nat)
    requires Sifting(s, j, i) && j <= i && (j > 0 ==> NotAfter(s[j - 1], s[j]))
    ensures Sorted(s[..i + 1])
  {
    forall k, l | 0 <= k < l <= i ensures NotAfter(s[k], s[l]) {
      if l == j && k < j - 1 { NotAfterTransitive(s[k], s[j - 1], s[j]); }
    }
  }

  /** Swap the element at i down to its place. */
  method SiftDown(a: array<Quote>, i: nat)
    requires i < a.Length && Sorted(a[..i])
    modifies a
    ensures Sorted(a[..i + 1]) && multiset(a[..]) == multiset(old(a[..]))
  {
    var j := i;
    assert forall k :: 0 <= k < i ==> a[..i][k] == a[k];
    while j > 0 && Before(a[j], a[j - 1])
      invariant 0 <= j <= i && multiset(a[..]) == multiset(old(a[..])) && Sifting(a[..], j, i)
    {
      SwapKeeps(a[..], j, i);
      ghost var was := a[..];
      a[j], a[j - 1] := a[j - 1], a[j];
      assert a[..] == was[j := was[j - 1]][j - 1 := was[j]];
      j := j - 1;
    }
    SiftDone(a[..], j, i);
  }

  method SortQuotes(a: array<Quote>)
    modifies a
    ensures Sorted(a[..]) && multiset(a[..]) == multiset(old(a[..]))
  {
    if a.Length == 0 { return; }
    var i := 1;
    while i < a.Length
      invariant 1 <= i <= a.Length && Sorted(a[..i]) && multiset(a[..]) == multiset(old(a[..]))
    {
      SiftDown(a, i);
      i := i + 1;
    }
    assert a[..a.Length] == a[..];
  }

  // ---------- who is offered ----------

  datatype Ask = Ask(peer: string, inRate: int64, cachedRate: int64, outRate: int64)
  /** serves: the peer advertises the requested service and model. */
  datatype Entry = Entry(seller: string, wallet: string, serves: bool)
  datatype Caps = Caps(inRate: Option<int64>, cachedRate: Option<int64>, outRate: Option<int64>)

  /** What resolveQuotes decides from. */
  datatype Market = Market(peers: map<string, Entry>, asks: seq<Ask>, caps: Caps, requirePriced: bool)

  /** askByPeer: a later ask replaces an earlier one. */
  function AskOf(asks: seq<Ask>, peer: string): Option<Ask> {
    if asks == [] then None
    else if asks[|asks| - 1].peer == peer then Some(asks[|asks| - 1])
    else AskOf(asks[..|asks| - 1], peer)
  }

  function QuoteOf(m: Market, peer: string): Option<Quote>
    requires peer in m.peers
  {
    var e := m.peers[peer];
    var ask := AskOf(m.asks, peer);
    if !e.serves || e.seller == "" || e.wallet == "" then None
    else if m.requirePriced && ask.None? && |m.asks| > 0 then None
    else match ask
      case None => Some(Quote(peer, e.seller, 0, 0, 0))
      case Some(a) => Some(Quote(peer, e.seller, a.inRate, a.cachedRate, a.outRate))
  }

  predicate Within(rate: int64, cap: Option<int64>) {
    cap.Some? ==> rate <= cap.value
  }

  predicate Affordable(q: Quote, caps: Caps) {
    Within(q.inRate, caps.inRate) && Within(q.cachedRate, caps.cachedRate) && Within(q.outRate, caps.outRate)
  }

  /** What the loops compute. */
  predicate Offered(m: Market, q: Quote) {
    q.peer in m.peers && QuoteOf(m, q.peer) == Some(q) && Affordable(q, m.caps)
  }

  // ---------- and who should be ----------

  /** The peer advertises the model and its owner can be paid. */
  predicate Serves(m: Market, peer: string) {
    peer in m.peers && m.peers[peer].serves && m.peers[peer].seller != "" && m.peers[peer].wallet != ""
  }

  predicate Unpriced(asks: seq<Ask>, peer: string) {
    forall i :: 0 <= i < |asks| ==> asks[i].peer != peer
  }

  /** Ask i is the last that names the quote's peer, and the quote has its three rates. */
  predicate PricedBy(asks: seq<Ask>, q: Quote, i: int) {
    && 0 <= i < |asks| && asks[i].peer == q.peer && (forall j :: i < j < |asks| ==> asks[j].peer != q.peer)
    && q.inRate == asks[i].inRate && q.cachedRate == asks[i].cachedRate && q.outRate == asks[i].outRate
  }

  /** The peer may serve without a price: there are no asks at all, or none are needed. */
  predicate MayBeFree(m: Market, peer: string) {
    Unpriced(m.asks, peer) && (m.asks == [] || !m.requirePriced)
  }

  predicate IsFree(q: Quote) {
    q.inRate == 0 && q.cachedRate == 0 && q.outRate == 0
  }

  predicate UnderCaps(q: Quote, caps: Caps) {
    && (caps.inRate.Some? ==> q.inRate <= caps.inRate.value)
    && (caps.cachedRate.Some? ==> q.cachedRate <= caps.cachedRate.value)
    && (caps.outRate.Some? ==> q.outRate <= caps.outRate.value)
  }

  /** q is a serving, payable peer's quote, at the rates of its last ask or free, each rate under its own cap. */
  ghost predicate Listed(m: Market, q: Quote) {
    && Serves(m, q.peer) && q.seller == m.peers[q.peer].seller
    && ((exists i :: PricedBy(m.asks, q, i)) || (MayBeFree(m, q.peer) && IsFree(q)))
    && UnderCaps(q, m.caps)
  }

  /** Some serving, payable peer has a price or needs none. */
  ghost predicate AnyQuote(m: Market) {
    exists peer :: Serves(m, peer) && (!Unpriced(m.asks, peer) || MayBeFree(m, peer))
  }

  lemma {:induction false} AskIs(asks: seq<Ask>, peer: string) returns (i: int)
    ensures AskOf(asks, peer).None? <==> Unpriced(asks, peer)
    ensures AskOf(asks, peer).Some? ==>
      0 <= i < |asks| && asks[i] == AskOf(asks, peer).value && asks[i].peer == peer && forall j :: i < j < |asks| ==> asks[j].peer != peer
  {
    i := |asks| - 1;
    if asks != [] {
      if asks[i].peer != peer {
        var init := asks[..i];
        i := AskIs(init, peer);
        assert forall j :: 0 <= j < |init| ==> init[j] == asks[j];
      }
    }
  }

  /** The loops' quotes are exactly the ones that should be offered. */
  lemma OfferedIffListed(m: Market, q: Quote)
    ensures Offered(m, q) <==> Listed(m, q)
  {
    var i := AskIs(m.asks, q.peer);
    if AskOf(m.asks, q.peer).Some? {
      if Offered(m, q) { assert PricedBy(m.asks, q, i); }
      if j :| PricedBy(m.asks, q, j) { assert i == j; }
    }
  }

  lemma AnyQuoteIff(m: Market, peer: string)
    ensures peer in m.peers && QuoteOf(m, peer).Some? <==> Serves(m, peer) && (!Unpriced(m.asks, peer) || MayBeFree(m, peer))
  {
    var i := AskIs(m.asks, peer);
  }

  predicate DistinctPeers(s: seq<Quote>) {
    forall i, j :: 0 <= i < j < |s| ==> s[i].peer != s[j].peer
  }

  /** The allowed list: sorted, without repetition, all of them listed, and nothing listed was left out
      except what comes after a full list. */
  ghost predicate IsAllowed(m: Market, s: seq<Quote>) {
    && Sorted(s) && DistinctPeers(s) && |s| <= MAX_ALLOWED_PEERS
    && (forall q | q in s :: Listed(m, q))
    && (forall q | Listed(m, q) && q !in s :: |s| == MAX_ALLOWED_PEERS && forall x | x in s :: Before(x, q))
  }

  /** The map iteration orders: every peer once. */
  ghost predicate Enumerates(order: seq<string>, m: Market) {
    && (forall p :: p in order <==> p in m.peers)
    && (forall i, j :: 0 <= i < j < |order| ==> order[i] != order[j])
  }

  function QuotesIn(m: Market, order: seq<string>): seq<Quote>
    requires forall p | p in order :: p in m.peers
  {
    if order == [] then []
    else
      var q := QuoteOf(m, order[|order| - 1]);
      QuotesIn(m, order[..|order| - 1]) + if q.Some? then [q.value] else []
  }

  function Filter(qs: seq<Quote>, caps: Caps): seq<Quote> {
    if qs == [] then []
    else Filter(qs[..|qs| - 1], caps) + if Affordable(qs[|qs| - 1], caps) then [qs[|qs| - 1]] else []
  }

  lemma {:induction false} QuotesInAre(m: Market, order: seq<string>)
    requires (forall p | p in order :: p in m.peers) && forall i, j :: 0 <= i < j < |order| ==> order[i] != order[j]
    ensures DistinctPeers(QuotesIn(m, order))
    ensures forall q :: q in QuotesIn(m, order) <==> q.peer in order && QuoteOf(m, q.peer) == Some(q)
  {
    if order != [] {
      var init, last := order[..|order| - 1], order[|order| - 1];
      QuotesInAre(m, init);
      assert order == init + [last];
      var qs := QuotesIn(m, init);
      forall i | 0 <= i < |qs| ensures qs[i].peer != last {
        assert qs[i] in qs;
      }
    }
  }

  lemma {:induction false} FilterIs(qs: seq<Quote>, caps: Caps)
    requires DistinctPeers(qs)
    ensures DistinctPeers(Filter(qs, caps))
    ensures forall q :: q in Filter(qs, caps) <==> q in qs && Affordable(q, caps)
  {
    if qs != [] {
      var init, last := qs[..|qs| - 1], qs[|qs| - 1];
      FilterIs(init, caps);
      assert qs == init + [last];
      var fs := Filter(init, caps);
      forall i | 0 <= i < |fs| ensures fs[i].peer != last.peer {
        assert fs[i] in fs;
      }
    }
  }

  lemma SameElements(s: seq<Quote>, t: seq<Quote>)
    requires multiset(s) == multiset(t)
    ensures forall q :: q in s <==> q in t
  {
    assert forall q :: (q in s <==> q in multiset(s)) && (q in t <==> q in multiset(t));
  }

  lemma SamePeerSame(s: seq<Quote>, x: Quote, y: Quote)
    requires DistinctPeers(s) && x in s && y in s && x.peer == y.peer
    ensures x == y
  {}

  /** A permutation has the same distinct peers. */
  lemma DistinctPermutes(s: seq<Quote>, t: seq<Quote>)
    requires multiset(s) == multiset(t) && DistinctPeers(s)
    ensures DistinctPeers(t)
  {
    SameElements(s, t);
    forall i, j | 0 <= i < j < |t| ensures t[i].peer != t[j].peer {
      assert t[i] in t && t[j] in t;
      if t[i].peer == t[j].peer {
        SamePeerSame(s, t[i], t[j]);
        TwiceIn(t, i, j);
        OnceIn(s, t[i]);
      }
    }
  }

  lemma TwiceIn(t: seq<Quote>, i: nat, j: nat)
    requires i < j < |t| && t[i] == t[j]
    ensures multiset(t)[t[i]] >= 2
  {
    assert t == t[..i] + [t[i]] + t[i + 1..j] + [t[j]] + t[j + 1..];
  }

  lemma {:induction false} OnceIn(s: seq<Quote>, q: Quote)
    requires DistinctPeers(s)
    ensures multiset(s)[q] <= 1
  {
    if s != [] {
      var init := s[..|s| - 1];
      assert s == init + [s[|s| - 1]];
      OnceIn(init, q);
      if q in init {
        var i :| 0 <= i < |init| && init[i] == q;
        assert s[i] == q;
      }
    }
  }

  /** Sorted, then cut: the smallest of the listed. */
  lemma CutIsAllowed(m: Market, s: seq<Quote>)
    requires Sorted(s) && DistinctPeers(s) && forall q :: q in s <==> Listed(m, q)
    ensures IsAllowed(m, if |s| > MAX_ALLOWED_PEERS then s[..MAX_ALLOWED_PEERS] else s)
  {
    if |s| > MAX_ALLOWED_PEERS {
      var cut := s[..MAX_ALLOWED_PEERS];
      assert forall i :: 0 <= i < MAX_ALLOWED_PEERS ==> cut[i] == s[i];
      forall q | Listed(m, q) && q !in cut ensures forall x | x in cut :: Before(x, q) {
        var j :| 0 <= j < |s| && s[j] == q;
        assert j >= MAX_ALLOWED_PEERS;
        forall x | x in cut ensures Before(x, q) {
          var i :| 0 <= i < |cut| && cut[i] == x;
          assert s[i] == x;
          StrTotal(x.peer, q.peer);
        }
      }
    }
  }

  /** The loop over the live peers, in whatever order the map yields them. */
  method BuildQuotes(m: Market, order: seq<string>) returns (quotes: seq<Quote>)
    requires forall p | p in order :: p in m.peers
    ensures quotes == QuotesIn(m, order)
  {
    quotes := [];
    for i := 0 to |order|
      invariant quotes == QuotesIn(m, order[..i])
    {
      assert order[..i + 1][..i] == order[..i];
      var q := QuoteOf(m, order[i]);
      if q.Some? { quotes := quotes + [q.value]; }
    }
    assert order[..|order|] == order;
  }

  method FilterAffordable(quotes: seq<Quote>, caps: Caps) returns (affordable: seq<Quote>)
    ensures affordable == Filter(quotes, caps)
  {
    affordable := [];
    for i := 0 to |quotes|
      invariant affordable == Filter(quotes[..i], caps)
    {
      assert quotes[..i + 1][..i] == quotes[..i];
      if Affordable(quotes[i], caps) { affordable := affordable + [quotes[i]]; }
    }
    assert quotes[..|quotes|] == quotes;
  }

  lemma AffordableIs(m: Market, order: seq<string>)
    requires Enumerates(order, m)
    ensures DistinctPeers(Filter(QuotesIn(m, order), m.caps))
    ensures forall q :: q in Filter(QuotesIn(m, order), m.caps) <==> Listed(m, q)
  {
    QuotesInAre(m, order);
    FilterIs(QuotesIn(m, order), m.caps);
    forall q ensures Offered(m, q) <==> Listed(m, q) { OfferedIffListed(m, q); }
  }

  /** The whole resolution, for one enumeration order of the peers. None: no peer is affordable. */
  method ResolveQuotes(m: Market, order: seq<string>) returns (res: Option<seq<Quote>>)
    requires Enumerates(order, m)
    ensures res.None? <==> AnyQuote(m) && forall q :: !Listed(m, q)
    ensures res.Some? ==> IsAllowed(m, res.value)
  {
    var quotes := BuildQuotes(m, order);
    var affordable := FilterAffordable(quotes, m.caps);
    AffordableIs(m, order);
    AnyQuoteIs(m, order, quotes);
    if |affordable| == 0 && |quotes| > 0 { return None; }
    var a := new Quote[|affordable|](i requires 0 <= i < |affordable| => affordable[i]);
    assert a[..] == affordable;
    SortQuotes(a);
    var sorted := a[..];
    SameElements(affordable, sorted);
    DistinctPermutes(affordable, sorted);
    CutIsAllowed(m, sorted);
    assert affordable != [] ==> affordable[0] in affordable;
    res := Some(if |sorted| > MAX_ALLOWED_PEERS then sorted[..MAX_ALLOWED_PEERS] else sorted);
  }

  lemma AnyQuoteIs(m: Market, order: seq<string>, quotes: seq<Quote>)
    requires Enumerates(order, m) && quotes == QuotesIn(m, order)
    ensures AnyQuote(m) <==> quotes != []
  {
    if quotes != [] { SomeQuote(m, order, quotes[0]); }
    if AnyQuote(m) { QuoteIn(m, order); }
  }

  lemma SomeQuote(m: Market, order: seq<string>, q: Quote)
    requires Enumerates(order, m) && q in QuotesIn(m, order)
    ensures AnyQuote(m)
  {
    QuotesInAre(m, order);
    AnyQuoteIff(m, q.peer);
  }

  lemma QuoteIn(m: Market, order: seq<string>)
    requires Enumerates(order, m) && AnyQuote(m)
    ensures QuotesIn(m, order) != []
  {
    QuotesInAre(m, order);
    var p :| Serves(m, p) && (!Unpriced(m.asks, p) || MayBeFree(m, p));
    AnyQuoteIff(m, p);
    assert QuoteOf(m, p).value in QuotesIn(m, order);
  }

  // ---------- the order of iteration does not matter ----------

  /** There is only one allowed list. */
  lemma AllowedIsUnique(m: Market, s: seq<Quote>, t: seq<Quote>)
    requires IsAllowed(m, s) && IsAllowed(m, t)
    ensures s == t
  {
    AllowedPrefix(m, s, t, Min(|s|, |t|));
    if |s| <= |t| { NotShorter(m, s, t); } else { NotShorter(m, t, s); }
  }

  lemma NotInPrefix(t: seq<Quote>, k: nat)
    requires DistinctPeers(t) && k < |t|
    ensures t[k] !in t[..k]
  {}

  /** A list that could have been longer would have been. */
  lemma NotShorter(m: Market, s: seq<Quote>, t: seq<Quote>)
    requires IsAllowed(m, s) && IsAllowed(m, t) && |s| <= |t| && s == t[..|s|]
    ensures s == t
  {
    if |s| < |t| {
      assert t[|s|] in t;
      NotInPrefix(t, |s|);
    }
  }

  lemma {:induction false} AllowedPrefix(m: Market, s: seq<Quote>, t: seq<Quote>, n: nat)
    requires IsAllowed(m, s) && IsAllowed(m, t) && n <= |s| && n <= |t|
    ensures s[..n] == t[..n]
  {
    if n > 0 {
      AllowedPrefix(m, s, t, n - 1);
      NoneSmaller(m, s, t, n - 1);
      NoneSmaller(m, t, s, n - 1);
      Antisymmetric(s[n - 1], t[n - 1]);
      assert s[n - 1] in s && t[n - 1] in t;
      OneQuoteEach(m, s[n - 1], t[n - 1]);
      assert s[..n] == s[..n - 1] + [s[n - 1]] && t[..n] == t[..n - 1] + [t[n - 1]];
    }
  }

  /** A peer has one quote. */
  lemma OneQuoteEach(m: Market, x: Quote, y: Quote)
    requires Listed(m, x) && Listed(m, y) && x.peer == y.peer
    ensures x == y
  {
    OfferedIffListed(m, x);
    OfferedIffListed(m, y);
  }

  /** With equal prefixes, the next element of one list is not after the other's. */
  lemma NoneSmaller(m: Market, s: seq<Quote>, t: seq<Quote>, i: nat)
    requires IsAllowed(m, s) && IsAllowed(m, t) && i < |s| && i < |t| && s[..i] == t[..i]
    ensures NotAfter(s[i], t[i])
  {
    var q := t[i];
    assert q in t && Listed(m, q);
    NotInPrefix(t, i);
    assert forall k :: 0 <= k < i ==> s[k] in t[..i] by {
      assert forall k :: 0 <= k < i ==> s[k] == s[..i][k];
    }
    if q in s {
      var k :| 0 <= k < |s| && s[k] == q;
      assert k >= i;
      if k == i { StrIrreflexive(q.peer); }
    } else {
      assert s[i] in s;
      BeforeNotAfter(s[i], q);
    }
  }
}
