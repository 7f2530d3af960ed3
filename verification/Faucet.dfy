/** The faucet's lease (internal/store/faucet.go, handleClaim in internal/faucetapi/api.go): reserve a
    pending row, send, then complete or clear it. One account; times are microseconds. */
module Faucet {
  import opened Common

  /** tx_signature "" is a pending claim. */
  datatype Claim = Claim(wallet: string, amount: int, signature: string, at: int)

  const PENDING_TTL := 120_000_000

  // ---------- the three statements ----------

  predicate MayReserve(row: Option<Claim>, now: int) {
    row.None? || (row.value.signature == "" && row.value.at < now - PENDING_TTL)
  }

  /** ClaimFaucet, which the handler always calls with an empty signature. */
  function ReserveRow(row: Option<Claim>, wallet: string, amount: int, now: int): (Option<Claim>, bool) {
    if MayReserve(row, now) then (Some(Claim(wallet, amount, "", now)), true) else (row, false)
  }

  /** CompleteFaucetClaim: false when no pending claim is there. */
  function CompleteRow(row: Option<Claim>, signature: string): (Option<Claim>, bool) {
    if row.Some? && row.value.signature == "" then (Some(row.value.(signature := signature)), true) else (row, false)
  }

  function ClearRow(row: Option<Claim>): Option<Claim> {
    if row.Some? && row.value.signature == "" then None else row
  }

  /** A reservation takes the place of no claim or of a pending one older than two minutes, with the given
      wallet and amount; a signature is stored in a pending claim only, and only such a claim is removed. */
  lemma RowsAnswer(row: Option<Claim>, wallet: string, amount: int, now: int, signature: string)
    ensures ReserveRow(row, wallet, amount, now)
         == if row.Some? && (row.value.signature != "" || now - row.value.at <= 120_000_000) then (row, false)
            else (Some(Claim(wallet, amount, "", now)), true)
    ensures row.Some? && row.value.signature == "" ==>
      && CompleteRow(row, signature) == (Some(Claim(row.value.wallet, row.value.amount, signature, row.value.at)), true)
      && ClearRow(row) == None
    ensures row.None? || row.value.signature != "" ==> CompleteRow(row, signature) == (row, false) && ClearRow(row) == row
  {}

  // ---------- concurrent requests ----------

  /** A request between its reservation and its complete or clear. */
  datatype Request = Sending(at: int) | Sent(at: int, signature: string) | SendFailed(at: int)

  /** sends counts the signature-returning sends, recorded the completions that stored one, and faults
      the sends whose completion was lost to a store error, a crash or an empty signature. */
  datatype World = World(now: int, row: Option<Claim>, live: map<nat, Request>, sends: nat, recorded: nat, faults: nat)

  datatype Event =
    | Tick(d: nat)
    | Reserve(id: nat, wallet: string, amount: int)
    | SendOk(id: nat, signature: string)
    | SendFail(id: nat)
    | Complete(id: nat, stored: bool)
    | Clear(id: nat, stored: bool)
    | Crash(id: nat)

  const START := World(0, None, map[], 0, 0, 0)

  /** No live request outlasts the window. */
  predicate InTime(w: World, window: int, d: nat) {
    forall id | id in w.live :: w.now + d - w.live[id].at <= window
  }

  predicate Enabled(w: World, window: int, e: Event) {
    match e
    case Tick(d) => InTime(w, window, d)
    case Reserve(id, _, _) => id !in w.live
    case SendOk(id, _) => id in w.live && w.live[id].Sending?
    case SendFail(id) => id in w.live && w.live[id].Sending?
    case Complete(id, _) => id in w.live && w.live[id].Sent?
    case Clear(id, _) => id in w.live && w.live[id].SendFailed?
    case Crash(id) => id in w.live
  }

  function Next(w: World, window: int, e: Event): World
    requires Enabled(w, window, e)
  {
    match e
    case Tick(d) => w.(now := w.now + d)
    case Reserve(id, wallet, amount) =>
      var t := ReserveRow(w.row, wallet, amount, w.now);
      if t.1 then w.(row := t.0, live := w.live[id := Sending(w.now)]) else w
    case SendOk(id, sig) => w.(live := w.live[id := Sent(w.live[id].at, sig)], sends := w.sends + 1)
    case SendFail(id) => w.(live := w.live[id := SendFailed(w.live[id].at)])
    case Complete(id, stored) =>
      var sig := w.live[id].signature;
      var gone := w.(live := w.live - {id});
      if !stored || sig == "" then gone.(faults := w.faults + 1)
      else
        var t := CompleteRow(w.row, sig);
        if t.1 then gone.(row := t.0, recorded := w.recorded + 1) else gone
    case Clear(id, stored) => w.(row := if stored then ClearRow(w.row) else w.row, live := w.live - {id})
    case Crash(id) => w.(live := w.live - {id}, faults := w.faults + if w.live[id].Sent? then 1 else 0)
  }

  predicate Runs(w: World, window: int, es: seq<Event>, w': World)
    decreases |es|
  {
    if es == [] then w' == w else Enabled(w, window, es[0]) && Runs(Next(w, window, es[0]), window, es[1..], w')
  }

  // ---------- a completed claim stays ----------

  predicate Done(row: Option<Claim>) {
    row.Some? && row.value.signature != ""
  }

  /** Whatever the window: once a signature is stored, no event changes the row or lets anyone in. */
  lemma {:induction false} CompletedStays(w: World, window: int, es: seq<Event>, w': World)
    requires Done(w.row) && Runs(w, window, es, w')
    ensures w'.row == w.row && forall id | id in w'.live :: id in w.live
    decreases |es|
  {
    if es != [] { CompletedStays(Next(w, window, es[0]), window, es[1..], w'); }
  }

  // ---------- the lease excludes ----------

  /** The live request, if any, is alone, in time, and the pending row is its own. */
  predicate Leased(w: World, window: int) {
    && (forall id, id' | id in w.live && id' in w.live :: id == id')
    && (forall id | id in w.live ::
          w.now - w.live[id].at <= window && w.row.Some? && w.row.value.signature == "" && w.row.value.at == w.live[id].at)
  }

  predicate Unpaid(w: World) {
    exists id :: id in w.live && w.live[id].Sent?
  }

  /** Every signature-returning send is recorded, lost to a fault, or about to be recorded. */
  predicate Accounted(w: World) {
    && (w.recorded == if Done(w.row) then 1 else 0)
    && w.sends == w.recorded + w.faults + if Unpaid(w) then 1 else 0
  }

  predicate Inv(w: World, window: int) {
    Leased(w, window) && Accounted(w)
  }

  lemma StepKeeps(w: World, window: int, e: Event)
    requires 0 <= window <= PENDING_TTL && Inv(w, window) && Enabled(w, window, e)
    ensures Inv(Next(w, window, e), window)
  {
    var w' := Next(w, window, e);
    match e
    case Reserve(id, _, _) =>
      if w' != w {
        assert forall x | x in w.live :: false;
        assert id in w'.live && w'.live[id].Sending?;
      }
    case SendOk(id, _) => assert id in w'.live && w'.live[id].Sent?;
    case SendFail(id) => assert id in w'.live;
    case Complete(id, _) => assert Unpaid(w) && w'.live == map[];
    case Clear(id, _) => assert w'.live == map[];
    case Crash(id) => assert w'.live == map[];
    case Tick(_) => assert Unpaid(w') == Unpaid(w);
  }

  /** With windows no longer than the TTL, in every reachable state at most one request is inside its
      window, the pending row is its own, and sends without faults number at most one. */
  lemma {:induction false} LeaseExcludes(w: World, window: int, es: seq<Event>, w': World)
    requires 0 <= window <= PENDING_TTL && Inv(w, window) && Runs(w, window, es, w')
    ensures Inv(w', window) && w'.sends <= 1 + w'.faults
    decreases |es|
  {
    if es != [] {
      StepKeeps(w, window, es[0]);
      LeaseExcludes(Next(w, window, es[0]), window, es[1..], w');
    } else if Unpaid(w) {
      var id :| id in w.live && w.live[id].Sent?;
      assert !Done(w.row);
    }
  }

  /** A clear inside the window removes the caller's own row, never anyone else's. */
  lemma ClearIsOwn(w: World, window: int, id: nat)
    requires Inv(w, window) && Enabled(w, window, Clear(id, true))
    ensures w.row.Some? && w.row.value.at == w.live[id].at && Next(w, window, Clear(id, true)).row == None
  {}

  // ---------- and only up to the TTL ----------

  /** Windows up to this length never pay twice without a fault. */
  ghost predicate PaysOnce(window: int) {
    forall es: seq<Event>, w': World | Runs(START, window, es, w') :: w'.sends <= 1 + w'.faults
  }

  /** One microsecond past the TTL: the second request takes the row over while the first still sends. */
  lemma TakeoverPaysTwice(window: int)
    requires window > PENDING_TTL
    ensures !PaysOnce(window)
  {
    var pair := map[1 := Sending(0), 2 := Sending(PENDING_TTL + 1)];
    var row1, row2 := Some(Claim("w", 5, "", 0)), Some(Claim("w", 5, "", PENDING_TTL + 1));
    var a := Reserve(1, "w", 5);
    var w1 := World(0, row1, map[1 := Sending(0)], 0, 0, 0);
    var w2 := World(PENDING_TTL + 1, row1, map[1 := Sending(0)], 0, 0, 0);
    var w3 := World(PENDING_TTL + 1, row2, pair, 0, 0, 0);
    var w4 := World(PENDING_TTL + 1, row2, pair[1 := Sent(0, "s")], 1, 0, 0);
    var w5 := World(PENDING_TTL + 1, row2, pair[1 := Sent(0, "s")][2 := Sent(PENDING_TTL + 1, "t")], 2, 0, 0);
    assert Next(START, window, a) == w1;
    assert Next(w1, window, Tick(PENDING_TTL + 1)) == w2;
    assert Next(w2, window, Reserve(2, "w", 5)) == w3;
    assert Next(w3, window, SendOk(1, "s")) == w4;
    assert Next(w4, window, SendOk(2, "t")) == w5;
    var e5 := [SendOk(2, "t")];
    var e4 := [SendOk(1, "s")] + e5;
    var e3 := [Reserve(2, "w", 5)] + e4;
    var e2 := [Tick(PENDING_TTL + 1)] + e3;
    var e1 := [a] + e2;
    assert e5[1..] == [] && e4[1..] == e5 && e3[1..] == e4 && e2[1..] == e3 && e1[1..] == e2;
    assert Runs(w4, window, e5, w5);
    assert Runs(w3, window, e4, w5);
    assert Runs(w2, window, e3, w5);
    assert Runs(w1, window, e2, w5);
    assert Runs(START, window, e1, w5);
  }

  /** The exact condition. */
  lemma PaysOnceIff(window: nat)
    ensures PaysOnce(window) <==> window <= PENDING_TTL
  {
    if window <= PENDING_TTL {
      assert Inv(START, window);
      forall es: seq<Event>, w': World | Runs(START, window, es, w') ensures w'.sends <= 1 + w'.faults {
        LeaseExcludes(START, window, es, w');
      }
    } else {
      TakeoverPaysTwice(window);
    }
  }

  // ---------- the table ----------

  class Store {
    var claims: map<string, Claim>

    function Row(account: string): Option<Claim>
      reads this
    {
      if account in claims then Some(claims[account]) else None
    }

    constructor ()
      ensures forall a :: Row(a) == None
    {
      claims := map[];
    }

    method ClaimFaucet(account: string, wallet: string, amount: int, now: int) returns (ok: bool)
      modifies this
      ensures (Row(account), ok) == ReserveRow(old(Row(account)), wallet, amount, now)
      ensures forall a | a != account :: Row(a) == old(Row(a))
    {
      if account in claims {
        var c := claims[account];
        if c.signature != "" || c.at >= now - PENDING_TTL { return false; }
      }
      claims := claims[account := Claim(wallet, amount, "", now)];
      ok := true;
    }

    method CompleteFaucetClaim(account: string, signature: string) returns (ok: bool)
      modifies this
      ensures (Row(account), ok) == CompleteRow(old(Row(account)), signature)
      ensures forall a | a != account :: Row(a) == old(Row(a))
    {
      if account !in claims || claims[account].signature != "" { return false; }
      claims := claims[account := claims[account].(signature := signature)];
      ok := true;
    }

    method ClearFaucetClaim(account: string)
      modifies this
      ensures Row(account) == ClearRow(old(Row(account)))
      ensures forall a | a != account :: Row(a) == old(Row(a))
    {
      if account in claims && claims[account].signature == "" {
        claims := claims - {account};
      }
    }
  }
}
