/** Deposit watcher passes as interleaved replicas over one stored cursor. */
module WatcherRuns {
  import opened Common
  import opened Watcher

  /** A pass holds what it loaded, then what it still has to do. at is where todo starts in the history;
      ready means the head was processed and its advance is due. */
  datatype Pass =
    | Loaded(lastSig: string)
    | Working(cursor: string, todo: seq<string>, at: nat, blocked: bool, ready: bool)

  /** stored is the persisted cursor ("" when no row), done the signatures some pass processed. */
  datatype World = World(history: seq<string>, stored: string, done: set<string>, passes: map<nat, Pass>)

  datatype Event =
    | Grow(sigs: seq<string>)
    | Load(replica: nat)
    | List(replica: nat)
    | Process(replica: nat, ok: bool)
    | Advance(replica: nat)
    | Drop(replica: nat)

  /** AdvanceDepositCursor: the new stored cursor when the compare-and-set succeeds. */
  function Cas(stored: string, from: string, to: string): Option<string> {
    if from == to then Some(stored) else if stored == from then Some(to) else None
  }

  predicate Busy(w: World, replica: nat) {
    replica in w.passes && w.passes[replica].Working? && w.passes[replica].todo != []
  }

  ghost predicate Enabled(w: World, e: Event) {
    match e
    case Grow(sigs) => History(w.history + sigs)
    case Load(r) => true
    case List(r) => r in w.passes && w.passes[r].Loaded?
    case Process(r, ok) => Busy(w, r) && !w.passes[r].ready
    case Advance(r) => Busy(w, r) && w.passes[r].ready
    case Drop(r) => true
  }

  function Start(lastSig: string, p: Listing, h: seq<string>): Option<Pass> {
    match p
    case Pending(sigs) => if |sigs| <= |h| then Some(Working(lastSig, Rev(sigs), |h| - |sigs|, false, false)) else None
    case _ => None
  }

  function Next(w: World, limit: nat, e: Event): World
    requires limit > 0 && Enabled(w, e)
  {
    match e
    case Grow(sigs) => w.(history := w.history + sigs)
    case Load(r) => w.(passes := w.passes[r := Loaded(w.stored)])
    case List(r) =>
      var last := w.passes[r].lastSig;
      (match Start(last, Collected(w.history, last, limit), w.history)
       case Some(p) => w.(passes := w.passes[r := p])
       case None => w.(passes := w.passes - {r}))
    case Process(r, ok) =>
      var p := w.passes[r];
      if !ok then w.(passes := w.passes[r := p.(todo := p.todo[1..], at := p.at + 1, blocked := true)])
      else
        var p' := if p.blocked then p.(todo := p.todo[1..], at := p.at + 1) else p.(ready := true);
        w.(done := w.done + {p.todo[0]}, passes := w.passes[r := p'])
    case Advance(r) =>
      var p := w.passes[r];
      (match Cas(w.stored, p.cursor, p.todo[0])
       case None => w.(passes := w.passes - {r})
       case Some(s) => w.(stored := s, passes := w.passes[r := Working(p.todo[0], p.todo[1..], p.at + 1, false, false)]))
    case Drop(r) => w.(passes := w.passes - {r})
  }

  ghost predicate Runs(w: World, limit: nat, es: seq<Event>, w': World)
    requires limit > 0
    decreases |es|
  {
    if es == [] then w' == w else Enabled(w, es[0]) && Runs(Next(w, limit, es[0]), limit, es[1..], w')
  }

  // ---------- the invariant ----------

  predicate Listed(h: seq<string>, s: string) {
    s == "" || s in h
  }

  /** todo is a stretch of the history; while nothing failed it directly follows the pass's cursor. */
  predicate WorkingOk(h: seq<string>, done: set<string>, p: Pass)
    requires p.Working?
  {
    && p.at + |p.todo| <= |h| && p.todo == h[p.at..p.at + |p.todo|]
    && Listed(h, p.cursor)
    && (!p.blocked && p.cursor != "" ==> p.at > 0 && h[p.at - 1] == p.cursor)
    && (p.ready ==> !p.blocked && p.todo != [] && p.todo[0] in done)
  }

  predicate PassOk(h: seq<string>, done: set<string>, p: Pass) {
    match p
    case Loaded(lastSig) => Listed(h, lastSig)
    case Working(_, _, _, _, _) => WorkingOk(h, done, p)
  }

  ghost predicate PassesOk(w: World) {
    forall r {:trigger w.passes[r]} | r in w.passes :: PassOk(w.history, w.done, w.passes[r])
  }

  /** Everything from index base up to the stored cursor has been processed. */
  ghost predicate Covered(w: World, base: nat) {
    w.stored != "" ==>
      && w.stored in w.history && base <= IndexOf(w.history, w.stored) + 1
      && forall i :: base <= i <= IndexOf(w.history, w.stored) ==> w.history[i] in w.done
  }

  ghost predicate Inv(w: World, base: nat) {
    History(w.history) && PassesOk(w) && Covered(w, base)
  }

  /** The stored cursor stays or moves to a later signature. */
  ghost predicate Forward(w: World, w': World) {
    && w.history <= w'.history && w.done <= w'.done
    && (w.stored != "" && w.stored in w.history ==>
          w'.stored in w'.history && IndexOf(w.history, w.stored) <= IndexOf(w'.history, w'.stored))
  }

  lemma IndexGrows(h: seq<string>, h': seq<string>, s: string)
    requires History(h') && h <= h' && s in h
    ensures s in h' && IndexOf(h', s) == IndexOf(h, s)
  {
    assert h'[IndexOf(h, s)] == s;
    IndexIs(h', IndexOf(h, s));
  }

  lemma GrowKeepsPass(h: seq<string>, h': seq<string>, done: set<string>, done': set<string>, p: Pass)
    requires h <= h' && done <= done' && PassOk(h, done, p)
    ensures PassOk(h', done', p)
  {
    if p.Working? { assert h'[p.at..p.at + |p.todo|] == h[p.at..p.at + |p.todo|]; }
  }

  lemma RevRev(s: seq<string>)
    ensures Rev(Rev(s)) == s
  {}

  lemma StartIs(h: seq<string>, last: string, from: nat)
    requires from <= |h|
    ensures Start(last, Pending(Rev(h[from..])), h) == Some(Working(last, h[from..], from, false, false))
  {
    RevRev(h[from..]);
  }

  /** A listing becomes work that starts right behind what was loaded. */
  lemma StartOk(h: seq<string>, done: set<string>, last: string, limit: nat)
    requires History(h) && limit > 0 && Listed(h, last)
    ensures var p := Start(last, Collected(h, last, limit), h); p.Some? ==> PassOk(h, done, p.value)
  {
    if h != [] {
      var from := if last == "" then Max(0, |h| - limit) else IndexOf(h, last) + 1;
      assert Collected(h, last, limit) == Pending(Rev(h[from..]));
      StartIs(h, last, from);
      assert h[from..] == h[from..from + |h[from..]|];
    }
  }

  lemma OtherPasses(w: World, w': World, r: nat)
    requires PassesOk(w) && w.history <= w'.history && w.done <= w'.done
    requires forall x | x in w'.passes && x != r :: x in w.passes && w'.passes[x] == w.passes[x]
    requires r in w'.passes ==> PassOk(w'.history, w'.done, w'.passes[r])
    ensures PassesOk(w')
  {
    forall x | x in w'.passes ensures PassOk(w'.history, w'.done, w'.passes[x]) {
      if x != r { GrowKeepsPass(w.history, w'.history, w.done, w'.done, w.passes[x]); }
    }
  }

  lemma GrowPasses(w: World, w': World)
    requires PassesOk(w) && w.history <= w'.history && w.done <= w'.done && w'.passes == w.passes
    ensures PassesOk(w')
  {
    forall x | x in w'.passes ensures PassOk(w'.history, w'.done, w'.passes[x]) {
      GrowKeepsPass(w.history, w'.history, w.done, w'.done, w.passes[x]);
    }
  }

  lemma GrowKeeps(w: World, w': World, base: nat)
    requires Inv(w, base) && History(w'.history) && w.history <= w'.history && w.done <= w'.done && w'.stored == w.stored
    ensures Covered(w', base) && Forward(w, w')
  {
    if w.stored != "" { IndexGrows(w.history, w'.history, w.stored); }
  }

  lemma ProcessKeeps(w: World, limit: nat, r: nat, ok: bool, base: nat)
    requires limit > 0 && Inv(w, base) && Enabled(w, Process(r, ok))
    ensures Inv(Next(w, limit, Process(r, ok)), base) && Forward(w, Next(w, limit, Process(r, ok)))
  {
    var w' := Next(w, limit, Process(r, ok));
    var p := w.passes[r];
    assert PassOk(w.history, w.done, p);
    assert p.todo[1..] == w.history[p.at + 1..p.at + |p.todo|];
    OtherPasses(w, w', r);
    GrowKeeps(w, w', base);
  }

  lemma AdvanceKeepsPasses(w: World, limit: nat, r: nat)
    requires limit > 0 && History(w.history) && PassesOk(w) && Enabled(w, Advance(r))
    ensures PassesOk(Next(w, limit, Advance(r)))
  {
    var p := w.passes[r];
    assert PassOk(w.history, w.done, p);
    assert p.todo[0] == w.history[p.at] && p.todo[1..] == w.history[p.at + 1..p.at + |p.todo|];
    OtherPasses(w, Next(w, limit, Advance(r)), r);
  }

  /** A successful compare-and-set moves the cursor one signature on, which was processed. */
  lemma AdvanceCovers(w: World, w': World, p: Pass, base: nat)
    requires History(w.history) && Covered(w, base) && p.Working? && WorkingOk(w.history, w.done, p) && p.ready
    requires w.stored == p.cursor && (p.cursor == "" ==> base == p.at)
    requires w' == w.(stored := p.todo[0], passes := w'.passes)
    ensures Covered(w', base) && Forward(w, w')
  {
    assert p.todo[0] == w.history[p.at];
    IndexIs(w.history, p.at);
    if p.at > 0 { IndexIs(w.history, p.at - 1); }
  }

  lemma AdvanceKeeps(w: World, limit: nat, r: nat, base: nat)
    requires limit > 0 && Inv(w, base) && Enabled(w, Advance(r))
    requires w.stored == "" && w.passes[r].cursor == "" ==> base == w.passes[r].at
    ensures Inv(Next(w, limit, Advance(r)), base) && Forward(w, Next(w, limit, Advance(r)))
  {
    var p := w.passes[r];
    var w' := Next(w, limit, Advance(r));
    assert PassOk(w.history, w.done, p);
    AdvanceKeepsPasses(w, limit, r);
    if p.cursor != p.todo[0] && w.stored == p.cursor { AdvanceCovers(w, w', p, base); }
  }

  lemma StepKeeps(w: World, limit: nat, e: Event, base: nat)
    requires limit > 0 && Inv(w, base) && Enabled(w, e) && w.stored != ""
    ensures Inv(Next(w, limit, e), base) && Forward(w, Next(w, limit, e)) && Next(w, limit, e).stored != ""
  {
    var w' := Next(w, limit, e);
    match e
    case Grow(sigs) =>
      GrowPasses(w, w');
      GrowKeeps(w, w', base);
    case Load(r) => OtherPasses(w, w', r);
    case List(r) =>
      assert PassOk(w.history, w.done, w.passes[r]);
      StartOk(w.history, w.done, w.passes[r].lastSig, limit);
      OtherPasses(w, w', r);
    case Process(r, ok) => ProcessKeeps(w, limit, r, ok, base);
    case Advance(r) =>
      assert PassOk(w.history, w.done, w.passes[r]);
      AdvanceKeeps(w, limit, r, base);
    case Drop(r) => OtherPasses(w, w', r);
  }

  // ---------- whole runs ----------

  /** From an established cursor on, over any interleaving, growth and failures: the cursor only moves
      forward, and everything it passed has been processed successfully by some pass. */
  lemma {:induction false} CursorNeverSkips(w: World, limit: nat, es: seq<Event>, w': World, base: nat)
    requires limit > 0 && Inv(w, base) && w.stored != "" && Runs(w, limit, es, w')
    ensures Inv(w', base) && Forward(w, w') && w'.stored != ""
    decreases |es|
  {
    if es != [] {
      StepKeeps(w, limit, es[0], base);
      CursorNeverSkips(Next(w, limit, es[0]), limit, es[1..], w', base);
    }
  }

  /** Any state whose only pass-local data is absent qualifies, with nothing assumed processed. */
  lemma EstablishedStart(w: World)
    requires History(w.history) && w.passes == map[] && w.stored in w.history
    ensures Inv(w, IndexOf(w.history, w.stored) + 1)
  {}

  /** Before there is a cursor, whichever replica inserts it inserts a signature it processed, and from
      there on nothing between it and the cursor is skipped. */
  lemma {:induction false} FirstCursorNeverSkips(w: World, limit: nat, es: seq<Event>, w': World) returns (base: nat)
    requires limit > 0 && Runs(w, limit, es, w')
    requires History(w.history) && PassesOk(w) && w.stored == ""
    ensures Inv(w', base)
    ensures w'.stored != "" ==> base <= IndexOf(w'.history, w'.stored)
    decreases |es|
  {
    base := 0;
    if es != [] {
      var e := es[0];
      var next := Next(w, limit, e);
      if e.Advance? && next.stored != "" {
        var p := w.passes[e.replica];
        base := p.at;
        assert PassOk(w.history, w.done, p);
        AdvanceKeeps(w, limit, e.replica, base);
        IndexIs(w.history, p.at);
        CursorNeverSkips(next, limit, es[1..], w', base);
      } else {
        EarlyStepKeeps(w, limit, e);
        base := FirstCursorNeverSkips(next, limit, es[1..], w');
      }
    }
  }

  lemma EarlyStepKeeps(w: World, limit: nat, e: Event)
    requires limit > 0 && History(w.history) && PassesOk(w) && w.stored == "" && Enabled(w, e)
    requires !(e.Advance? && Next(w, limit, e).stored != "")
    ensures var w' := Next(w, limit, e); History(w'.history) && PassesOk(w') && w'.stored == ""
  {
    var w' := Next(w, limit, e);
    match e
    case Grow(sigs) => GrowPasses(w, w');
    case Load(r) => OtherPasses(w, w', r);
    case List(r) =>
      assert PassOk(w.history, w.done, w.passes[r]);
      StartOk(w.history, w.done, w.passes[r].lastSig, limit);
      OtherPasses(w, w', r);
    case Process(r, ok) => ProcessKeeps(w, limit, r, ok, 0);
    case Advance(r) =>
      assert e == Advance(r);
      AdvanceKeepsPasses(w, limit, r);
    case Drop(r) => OtherPasses(w, w', r);
  }

  // ---------- one pass on its own ----------

  /** The end of the contiguous successful prefix. */
  function FurthestOk(cursor: string, todo: seq<string>, ok: string -> bool): string
    decreases |todo|
  {
    if todo == [] || !ok(todo[0]) then cursor else FurthestOk(todo[0], todo[1..], ok)
  }

  /** It is the last signature before the first failure. */
  lemma {:induction false} FurthestIs(cursor: string, todo: seq<string>, ok: string -> bool, n: nat)
    requires n <= |todo| && (forall i :: 0 <= i < n ==> ok(todo[i])) && (n < |todo| ==> !ok(todo[n]))
    ensures FurthestOk(cursor, todo, ok) == if n == 0 then cursor else todo[n - 1]
    decreases n
  {
    if n > 0 { FurthestIs(todo[0], todo[1..], ok, n - 1); }
  }

  /** What happens around one signature of a pass: whether processing it succeeds, what another replica
      stored meanwhile, and whether the advance and the reload of a lost cursor return an error. */
  datatype Around = Around(ok: bool, other: Option<string>, advanceFails: bool, reloadFails: bool)

  /** The persisted cursor, the processed signatures, the service's own copy of the cursor, and whether
      the pass returned an error. */
  datatype Walk = Walk(stored: string, done: set<string>, lastSig: string, failed: bool)

  function Overwritten(stored: string, other: Option<string>): string {
    if other.Some? then other.value else stored
  }

  /** The processing loop: oldest first, advancing until the first failure, stopping at a lost
      compare-and-set or an error of the store. */
  function WalkFrom(w: Walk, cursor: string, blocked: bool, todo: seq<string>, around: string -> Around): Walk
    decreases |todo|
  {
    if todo == [] then w
    else
      var sig := todo[0];
      var s := around(sig);
      var seen := w.(stored := Overwritten(w.stored, s.other));
      if !s.ok then WalkFrom(seen, cursor, true, todo[1..], around)
      else
        var after := seen.(done := seen.done + {sig});
        if blocked then WalkFrom(after, cursor, true, todo[1..], around)
        else if s.advanceFails then after.(failed := true)
        else
          match Cas(after.stored, cursor, sig)
          case None => if s.reloadFails then after.(failed := true) else after.(lastSig := after.stored)
          case Some(stored) => WalkFrom(after.(stored := stored, lastSig := sig), sig, false, todo[1..], around)
  }

  predicate Quiet(a: Around) {
    a.other.None? && !a.advanceFails
  }

  /** Undisturbed, the cursor ends at the end of the contiguous successful prefix and every signature
      that could be processed is. */
  lemma {:induction false} QuietWalk(w: Walk, cursor: string, blocked: bool, todo: seq<string>, around: string -> Around)
    requires (forall s | s in todo :: Quiet(around(s))) && (!blocked ==> w.stored == w.lastSig == cursor)
    ensures var w' := WalkFrom(w, cursor, blocked, todo, around);
      var end := if blocked then w.stored else FurthestOk(cursor, todo, s => around(s).ok);
      && w'.stored == end && w'.failed == w.failed && w'.lastSig == (if blocked then w.lastSig else end)
      && w'.done == w.done + set s | s in todo && around(s).ok
    decreases |todo|
  {
    if todo != [] {
      var sig := todo[0];
      assert sig in todo && Quiet(around(sig)) && todo == [sig] + todo[1..];
      if !around(sig).ok {
        QuietWalk(w, cursor, true, todo[1..], around);
      } else if blocked {
        QuietWalk(w.(done := w.done + {sig}), cursor, true, todo[1..], around);
      } else {
        QuietWalk(w.(done := w.done + {sig}, stored := sig, lastSig := sig), sig, false, todo[1..], around);
      }
    }
  }

  /** The stored cursor came from outside or is the last of the pass's first n signatures. */
  predicate FromOutside(todo: seq<string>, around: string -> Around, stored: string) {
    exists i :: 0 <= i < |todo| && around(todo[i]).other == Some(stored)
  }

  predicate AllDone(todo: seq<string>, n: nat, around: string -> Around, done: set<string>) {
    n <= |todo| && forall i :: 0 <= i < n ==> around(todo[i]).ok && todo[i] in done
  }

  lemma OutsideRest(todo: seq<string>, around: string -> Around, stored: string)
    requires todo != [] && FromOutside(todo[1..], around, stored)
    ensures FromOutside(todo, around, stored)
  {
    var i :| 0 <= i < |todo[1..]| && around(todo[1..][i]).other == Some(stored);
    assert todo[i + 1] == todo[1..][i];
  }

  lemma {:induction false} WalkGrows(w: Walk, cursor: string, blocked: bool, todo: seq<string>, around: string -> Around)
    ensures w.done <= WalkFrom(w, cursor, blocked, todo, around).done
    ensures blocked ==> var stored := WalkFrom(w, cursor, blocked, todo, around).stored; stored == w.stored || FromOutside(todo, around, stored)
    decreases |todo|
  {
    if todo != [] {
      var sig := todo[0];
      var s := around(sig);
      var seen := w.(stored := Overwritten(w.stored, s.other));
      var after := seen.(done := seen.done + {sig});
      if !s.ok || blocked {
        var next := if s.ok then after else seen;
        WalkGrows(next, cursor, true, todo[1..], around);
        var stored := WalkFrom(next, cursor, true, todo[1..], around).stored;
        if blocked && stored != seen.stored { OutsideRest(todo, around, stored); }
      } else if !s.advanceFails && Cas(after.stored, cursor, sig).Some? {
        WalkGrows(after.(stored := Cas(after.stored, cursor, sig).value, lastSig := sig), sig, false, todo[1..], around);
      }
    }
  }

  /** Whatever the other replicas store and whichever calls fail, a pass leaves the persisted cursor where
      it was or where another replica put it, or advances it over n signatures it processed all of. */
  lemma {:induction false} WalkNeverSkips(w: Walk, cursor: string, todo: seq<string>, around: string -> Around) returns (n: nat)
    ensures var w' := WalkFrom(w, cursor, false, todo, around);
      && AllDone(todo, n, around, w'.done)
      && (w'.stored == (if n == 0 then w.stored else todo[n - 1]) || FromOutside(todo, around, w'.stored))
    decreases |todo|
  {
    n := 0;
    if todo != [] {
      var sig := todo[0];
      var s := around(sig);
      var seen := w.(stored := Overwritten(w.stored, s.other));
      var after := seen.(done := seen.done + {sig});
      if !s.ok {
        WalkGrows(seen, cursor, true, todo[1..], around);
        var stored := WalkFrom(seen, cursor, true, todo[1..], around).stored;
        if stored != seen.stored { OutsideRest(todo, around, stored); }
      } else if !s.advanceFails && Cas(after.stored, cursor, sig).Some? {
        var next := after.(stored := Cas(after.stored, cursor, sig).value, lastSig := sig);
        var m := WalkNeverSkips(next, sig, todo[1..], around);
        WalkGrows(next, sig, false, todo[1..], around);
        n := WalkAdvanced(w, next, cursor, todo, around, m);
      }
    }
  }

  /** One advance in front of the rest of the walk. */
  lemma WalkAdvanced(w: Walk, next: Walk, cursor: string, todo: seq<string>, around: string -> Around, m: nat) returns (n: nat)
    requires todo != [] && around(todo[0]).ok && todo[0] in next.done && !around(todo[0]).advanceFails
    requires var sig := todo[0]; var stored := Overwritten(w.stored, around(sig).other);
      Cas(stored, cursor, sig) == Some(next.stored)
    requires var w' := WalkFrom(next, todo[0], false, todo[1..], around);
      && AllDone(todo[1..], m, around, w'.done) && next.done <= w'.done
      && (w'.stored == (if m == 0 then next.stored else todo[1..][m - 1]) || FromOutside(todo[1..], around, w'.stored))
    ensures var w' := WalkFrom(next, todo[0], false, todo[1..], around);
      && AllDone(todo, n, around, w'.done)
      && (w'.stored == (if n == 0 then w.stored else todo[n - 1]) || FromOutside(todo, around, w'.stored))
  {
    var w' := WalkFrom(next, todo[0], false, todo[1..], around);
    n := m + 1;
    forall i | 0 <= i < n ensures around(todo[i]).ok && todo[i] in w'.done {
      if i > 0 { assert todo[i] == todo[1..][i - 1]; }
    }
    if FromOutside(todo[1..], around, w'.stored) {
      OutsideRest(todo, around, w'.stored);
    } else if m == 0 && next.stored != todo[0] {
      n := 0;
      if around(todo[0]).other.Some? { assert around(todo[0]).other == Some(w'.stored); }
    }
  }

  function Elements(s: seq<string>): set<string> {
    set x | x in s
  }

  /** A pass that finds another replica's cursor stops there: it overwrites nothing, adopts what was
      stored, and leaves the rest for its next pass. */
  lemma {:induction false} LostPassStops(w: Walk, cursor: string, todo: seq<string>, around: string -> Around, i: nat, x: string)
    requires i < |todo| && w.stored == cursor && forall j :: 0 <= j < i ==> around(todo[j]).ok && Quiet(around(todo[j]))
    requires var a := around(todo[i]); a.ok && a.other == Some(x) && !a.advanceFails && !a.reloadFails
    requires var held := if i == 0 then cursor else todo[i - 1]; x != held && todo[i] != held
    ensures WalkFrom(w, cursor, false, todo, around) == Walk(x, w.done + Elements(todo[..i + 1]), x, w.failed)
    decreases i
  {
    var sig := todo[0];
    assert todo[..i + 1] == [sig] + todo[1..i + 1];
    if i > 0 {
      assert todo[1..][..i] == todo[1..i + 1];
      LostPassStops(w.(stored := sig, done := w.done + {sig}, lastSig := sig), sig, todo[1..], around, i - 1, x);
    } else {
      assert todo[1..1] == [];
    }
  }

  class Service {
    var stored: string
    var done: set<string>
    var lastSig: string

    constructor (cursor: string)
      ensures stored == cursor && done == {}
    {
      stored, done, lastSig := cursor, {}, "";
    }

    function State(failed: bool): Walk
      reads this
    {
      Walk(stored, done, lastSig, failed)
    }

    method AdvanceDepositCursor(from: string, to: string) returns (ok: bool)
      modifies this`stored
      ensures match Cas(old(stored), from, to) case Some(s) => ok && stored == s case None => !ok && stored == old(stored)
    {
      if from == to { return true; }
      if stored != from { return false; }
      stored := to;
      ok := true;
    }

    /** The processing loop over the candidates, newest first as collected. */
    method ProcessPending(sigs: seq<string>, cursor: string, around: string -> Around) returns (failed: bool)
      modifies this
      ensures State(failed) == WalkFrom(old(State(false)), cursor, false, Rev(sigs), around)
    {
      var at, blocked := cursor, false;
      ghost var todo := Rev(sigs);
      var i := |sigs|;
      assert todo[0..] == todo;
      while i > 0
        invariant 0 <= i <= |sigs|
        invariant WalkFrom(State(false), at, blocked, todo[|sigs| - i..], around) == WalkFrom(old(State(false)), cursor, false, todo, around)
      {
        i := i - 1;
        var sig := sigs[i];
        var s := around(sig);
        assert todo[|sigs| - i - 1..][0] == sig && todo[|sigs| - i - 1..][1..] == todo[|sigs| - i..];
        if s.other.Some? { stored := s.other.value; }
        if !s.ok {
          blocked := true;
          continue;
        }
        done := done + {sig};
        if blocked { continue; }
        if s.advanceFails { return true; }
        var advanced := AdvanceDepositCursor(at, sig);
        if !advanced {
          if s.reloadFails { return true; }
          lastSig := stored;
          return false;
        }
        at, lastSig := sig, sig;
      }
      failed := false;
    }

    /** One pass: the count of signatures examined, and whether it returned an error. */
    method RunOnce(loads: bool, calls: nat -> Option<seq<string>>, limit: nat, around: string -> Around)
      returns (examined: nat, failed: bool)
      requires limit > 0 && Grows(calls)
      modifies this
      ensures !loads ==> examined == 0 && failed && State(failed) == old(State(true))
      ensures loads ==>
                || (failed && State(failed) == old(State(true)).(lastSig := old(stored)) && exists k: nat :: FailsAt(calls, limit, k, examined))
                || (calls(0).Some? && var l := Collected(calls(0).value, old(stored), limit);
                    && examined == Size(l)
                    && State(failed) == WalkFrom(old(State(false)).(lastSig := old(stored)), old(stored), false, Candidates(l), around))
    {
      if !loads { return 0, true; }
      lastSig := stored;
      var listing := Collect(calls, stored, limit);
      match listing
      case Failed(n) => examined, failed := n, true;
      case Nothing(n) => examined, failed := n, false;
      case Pending(sigs) =>
        failed := ProcessPending(sigs, stored, around);
        examined := |sigs|;
    }
  }

  /** The candidates of a listing, oldest first. */
  function Candidates(l: Listing): seq<string> {
    if l.Pending? then Rev(l.sigs) else []
  }

  function Size(l: Listing): nat {
    match l
    case Pending(sigs) => |sigs|
    case Nothing(examined) => examined
    case Failed(examined) => examined
  }
}
