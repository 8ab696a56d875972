/** What the dedupe key decides: detection is complete exactly when no two pairs of agents share a key. */
module CollisionKeys {
  import opened Prelude
  import opened Utf16
  import opened Collisions
  import opened CollisionRuns

  // ---- the dedupe key ----

  predicate Plain(name: Text) {
    COLON !in name
  }

  /** Between names without a colon, the dedupe key determines the file and the unordered pair. */
  lemma KeyDeterminesPair(path: Text, a: Text, b: Text, other: Text, c: Text, d: Text)
    requires Plain(a) && Plain(b) && Plain(c) && Plain(d)
    ensures PairKey(path, a, b) == PairKey(other, c, d) <==> path == other && ((a == c && b == d) || (a == d && b == c))
  {
    BeforeTrichotomy(a, b);
    BeforeTrichotomy(c, d);
    if PairKey(path, a, b) == PairKey(other, c, d) {
      var x, y := if Before(b, a) then b else a, if Before(b, a) then a else b;
      var z, w := if Before(d, c) then d else c, if Before(d, c) then c else d;
      JoinedNames(path, x, y);
      JoinedNames(other, z, w);
      SplitAtLastSeparator(path + [COLON] + [COLON] + x + [COLON], y, other + [COLON] + [COLON] + z + [COLON], w,
                           COLON);
      CancelTail(path + [COLON] + [COLON] + x, other + [COLON] + [COLON] + z, [COLON]);
      SplitAtLastSeparator(path + [COLON], x, other + [COLON], z, COLON);
      CancelTail(path, other, [COLON]);
    }
  }

  lemma JoinedNames(path: Text, x: Text, y: Text)
    ensures path + SEPARATOR + x + SEPARATOR + y == path + [COLON] + [COLON] + x + [COLON] + [COLON] + y
  {
    assert path + SEPARATOR == path + [COLON] + [COLON];
    assert path + SEPARATOR + x + SEPARATOR == path + [COLON] + [COLON] + x + [COLON] + [COLON];
  }

  /**
   * With colons in names the key is ambiguous: file "f" with actors "a" and "b::c" against file "f::a" with "b"
   * and "c".
   */
  lemma KeyAmbiguous()
    ensures PairKey([102], [97], [98, COLON, COLON, 99]) == PairKey([102, COLON, COLON, 97], [98], [99])
  {
    assert PairKey([102], [97], [98, COLON, COLON, 99]) == [102, COLON, COLON, 97, COLON, COLON, 98, COLON, COLON, 99];
    assert PairKey([102, COLON, COLON, 97], [98], [99]) == [102, COLON, COLON, 97, COLON, COLON, 98, COLON, COLON, 99];
  }

  predicate SameColliders(p: Text, a: Text, b: Text, q: Text, c: Text, d: Text) {
    p == q && ((a == c && b == d) || (a == d && b == c))
  }

  // ---- completeness ----

  /** Two writes to one file and two to another never share a key unless they are of one pair. */
  predicate ClearBetween(w: Write, x: Write, y: Write, z: Write) {
    w.path == x.path && y.path == z.path && w.actor != x.actor && y.actor != z.actor
    && PairKey(w.path, w.actor, x.actor) == PairKey(y.path, y.actor, z.actor)
    ==> SameColliders(w.path, w.actor, x.actor, y.path, y.actor, z.actor)
  }

  /** No two different pairs of agents writing to one file share a key. */
  ghost predicate KeysClear(es: seq<Event>) {
    forall i, j, k, l :: 0 <= i < |es| && 0 <= j < |es| && 0 <= k < |es| && 0 <= l < |es| ==>
      ClearBetween(es[i].write, es[j].write, es[k].write, es[l].write)
  }

  predicate PlainNames(es: seq<Event>) {
    forall i :: 0 <= i < |es| ==> Plain(es[i].write.actor)
  }

  /** Names without colons are enough. */
  lemma PlainNamesAreClear(es: seq<Event>)
    requires PlainNames(es)
    ensures KeysClear(es)
  {
    hide PairKey;
    forall i, j, k, l | 0 <= i < |es| && 0 <= j < |es| && 0 <= k < |es| && 0 <= l < |es|
      ensures ClearBetween(es[i].write, es[j].write, es[k].write, es[l].write)
    {
      var w, x, y, z := es[i].write, es[j].write, es[k].write, es[l].write;
      KeyDeterminesPair(w.path, w.actor, x.actor, y.path, y.actor, z.actor);
    }
  }

  /** The newest write collides with an earlier one that the clock has not yet cut off, on a path within its bound. */
  predicate Visible(es: seq<Event>, window: int, bound: nat, i: nat) {
    && i < |es| - 1
    && var w := es[|es| - 1].write;
       && es[i].write.path == w.path && Collides(es[i].write, w, window)
       && es[i].write.ts >= es[|es| - 1].cut - window
       && |Filter(OnPath(es, w.path), es[|es| - 1].cut - window)| <= bound
  }

  /** A firing for the file and the unordered pair that is less than one window old. */
  ghost predicate Fired(es: seq<Event>, window: int, bound: nat, path: Text, a: Text, b: Text, now: int) {
    var fs := RunOf(es, window, bound).alarm.firings;
    exists k :: 0 <= k < |fs| && SamePair(fs[k], path, a, b) && 0 <= now - fs[k].secondTs < window
  }

  /** Completeness: while no two pairs of the run share a key, every visible collision is fired. */
  lemma CollisionsAreFired(es: seq<Event>, window: int, bound: nat, i: nat)
    requires Clocked(es) && KeysClear(es) && Visible(es, window, bound, i)
    ensures var w := es[|es| - 1].write; Fired(es, window, bound, w.path, es[i].write.actor, w.actor, w.ts)
  {
    hide RunOf, Clocked, PairKey, KeysClear, Muted, AlarmKept, LastCut, Filter, OnPath, Fired;
    VisibleInLedger(es, window, bound, i);
    MutedAfterRun(es, window, bound, es[i].write);
    AlarmKeptByRun(es, window, bound);
    MutedHasFiring(es, window, bound, i);
  }

  /** A write the clock has not cut off is still in the ledger when the path stays within its bound. */
  lemma VisibleInLedger(es: seq<Event>, window: int, bound: nat, i: nat)
    requires Clocked(es) && i < |es|
    requires var path := es[|es| - 1].write.path;
             && es[i].write.path == path && es[i].write.ts >= es[|es| - 1].cut - window
             && |Filter(OnPath(es, path), es[|es| - 1].cut - window)| <= bound
    ensures var path := es[|es| - 1].write.path;
            es[i].write in LedgerOf(RunOf(es, window, bound).writes, path) && es[i].write in OnPath(es, path)
  {
    hide RunOf, Clocked, LastCut, Filter;
    var e := es[|es| - 1];
    LedgerExact(es, e.write.path, window, bound);
    LastCutNow(es);
    FilterMembers(OnPath(es, e.write.path), e.cut - window);
  }

  lemma LastCutNow(es: seq<Event>)
    requires es != []
    ensures LastCut(es, es[|es| - 1].write.path) == es[|es| - 1].cut
  {
  }

  /** After the newest write every one of its collisions is muted, hence fired within the window. */
  lemma MutedAfterRun(es: seq<Event>, window: int, bound: nat, x: Write)
    requires Clocked(es) && es != []
    requires var w := es[|es| - 1].write; x in Priors(LedgerOf(RunOf(es, window, bound).writes, w.path), w, window)
    ensures var w := es[|es| - 1].write; Muted(RunOf(es, window, bound).alarm, PairKey(w.path, x.actor, w.actor), w.ts,
                                               window)
  {
    hide FireAll, Pruned, PairKey, Muted;
    var e, init := es[|es| - 1], es[..|es| - 1];
    var d := RunOf(init, window, bound);
    ClockedInit(es);
    AlarmKeptByRun(init, window, bound);
    if init != [] {
      assert init[|init| - 1] == es[|es| - 2];
    }
    AlarmLater(d.alarm, if init == [] then e.write.ts else init[|init| - 1].write.ts, e.write.ts, window);
    var prior := Priors(LedgerOf(Recorded(d, e.write, e.cut, window, bound).writes, e.write.path), e.write, window);
    FireAllKeeps(d.alarm, prior, e.write, window);
  }

  lemma MutedHasFiring(es: seq<Event>, window: int, bound: nat, i: nat)
    requires Clocked(es) && KeysClear(es) && i < |es| - 1
    requires AlarmKept(RunOf(es, window, bound).alarm, es[|es| - 1].write.ts, window)
    requires var w := es[|es| - 1].write;
             && es[i].write.path == w.path && es[i].write.actor != w.actor
             && Muted(RunOf(es, window, bound).alarm, PairKey(w.path, es[i].write.actor, w.actor), w.ts, window)
    ensures var w := es[|es| - 1].write; Fired(es, window, bound, w.path, es[i].write.actor, w.actor, w.ts)
  {
    hide PairKey, RunOf, Clocked, Realized;
    var w := es[|es| - 1].write;
    var alarm := RunOf(es, window, bound).alarm;
    var key := PairKey(w.path, es[i].write.actor, w.actor);
    var k :| 0 <= k < |alarm.firings| && KeyOf(alarm.firings[k]) == key
      && alarm.firings[k].secondTs == alarm.firedAt[key];
    var f := alarm.firings[k];
    FiringsAreReal(es, window, bound);
    assert f in alarm.firings;
    var m, n := WritesOf(es, f, window);
    assert ClearBetween(es[m].write, es[n].write, es[i].write, es[|es| - 1].write);
    assert SamePair(f, w.path, es[i].write.actor, w.actor);
  }

  lemma WritesOf(es: seq<Event>, f: Firing, window: int) returns (m: nat, n: nat)
    requires Realized(es, f, window)
    ensures m < |es| && n < |es| && Accounts(es[m].write, es[n].write, f, window)
  {
    m, n :| m < |es| && n < |es| && Accounts(es[m].write, es[n].write, f, window);
  }

  // ---- clashes ----

  /** Two writes to one file and two more to one file, by two pairs of agents. */
  function FourWrites(p: Text, a: Text, b: Text, q: Text, c: Text, d: Text): seq<Event> {
    [Event(Write(p, a, 0), 0), Event(Write(p, b, 1), 1), Event(Write(q, c, 2), 2), Event(Write(q, d, 3), 3)]
  }

  /**
   * When the keys of two pairs clash, the second collision is fired if and only if it is of the first pair, be
   * the files equal or not.
   */
  lemma ClashSwallowsCollision(p: Text, a: Text, b: Text, q: Text, c: Text, d: Text)
    requires PairKey(p, a, b) == PairKey(q, c, d) && a != b && c != d && a != EXTRAS && c != EXTRAS
    ensures var es := FourWrites(p, a, b, q, c, d);
            && Clocked(es) && Visible(es, 10, 64, 2)
            && (Fired(es, 10, 64, q, c, d, 3) <==> SameColliders(p, a, b, q, c, d))
  {
    hide RunOf, PairKey, Filter, OnPath, AlarmKept;
    var es := FourWrites(p, a, b, q, c, d);
    WindowSize(es, q, 3 - 10);
    var fs := RunOf(es, 10, 64).alarm.firings;
    var k := FirstPairFired(p, a, b, q, c, d);
    KeySymmetric(q, c, d);
    AlarmKeptByRun(es, 10, 64);
    forall j | 0 <= j < |fs| && SamePair(fs[j], q, c, d) ensures j == k {
      FiringTimes(p, a, b, q, c, d, fs[j]);
      FiringTimes(p, a, b, q, c, d, fs[k]);
      assert KeyOf(fs[j]) == KeyOf(fs[k]);
      OneFiringOfKey(RunOf(es, 10, 64).alarm, 3, 10, j, k);
    }
  }

  lemma KeySymmetric(p: Text, a: Text, b: Text)
    ensures PairKey(p, a, b) == PairKey(p, b, a)
  {
    BeforeTrichotomy(a, b);
  }

  lemma OneFiringOfKey(alarm: Alarm, now: int, window: int, j: nat, k: nat)
    requires AlarmKept(alarm, now, window) && j < |alarm.firings| && k < |alarm.firings|
    requires KeyOf(alarm.firings[j]) == KeyOf(alarm.firings[k])
    requires -window < alarm.firings[j].secondTs - alarm.firings[k].secondTs < window
    ensures j == k
  {
    hide PairKey;
  }

  lemma FiringTimes(p: Text, a: Text, b: Text, q: Text, c: Text, d: Text, f: Firing)
    requires f in RunOf(FourWrites(p, a, b, q, c, d), 10, 64).alarm.firings
    ensures 0 <= f.secondTs <= 3
  {
    hide RunOf;
    var es := FourWrites(p, a, b, q, c, d);
    FiringsAreReal(es, 10, 64);
    var m, n := WritesOf(es, f, 10);
  }

  /** The first pair's firing is there after all four writes. */
  lemma FirstPairFired(p: Text, a: Text, b: Text, q: Text, c: Text, d: Text) returns (k: nat)
    requires a != b && a != EXTRAS
    ensures var fs := RunOf(FourWrites(p, a, b, q, c, d), 10, 64).alarm.firings;
            k < |fs| && fs[k] == Firing(1, p, a, b, 0, 1)
  {
    hide RunOf, PairKey, FireAll, Priors;
    var w0, w1 := Write(p, a, 0), Write(p, b, 1);
    var e0, e1, e2, e3 := Event(w0, 0), Event(w1, 1), Event(Write(q, c, 2), 2), Event(Write(q, d, 3), 3);
    var f := Firing(1, p, a, b, 0, 1);
    NothingRun(10, 64);
    FirstOnPath([], e0, 10, 64);
    assert [] + [e0] == [e0] && [e0] + [e1] == [e0, e1] && [e0, e1] + [e2] == [e0, e1, e2];
    SecondOnPath([e0], w0, e1, 10, 64);
    assert RunOf([e0, e1], 10, 64).alarm.firings == [f];
    assert f in RunOf([e0, e1], 10, 64).alarm.firings;
    FiringStays([e0, e1], e2, 10, 64, f);
    FiringStays([e0, e1, e2], e3, 10, 64, f);
    assert [e0, e1, e2] + [e3] == FourWrites(p, a, b, q, c, d);
    var fs := RunOf(FourWrites(p, a, b, q, c, d), 10, 64).alarm.firings;
    k :| 0 <= k < |fs| && fs[k] == f;
  }

  lemma FiringStays(es: seq<Event>, e: Event, window: int, bound: nat, f: Firing)
    requires f in RunOf(es, window, bound).alarm.firings
    ensures f in RunOf(es + [e], window, bound).alarm.firings
  {
    hide RunOf, FireAll, Priors, Pruned;
    RunNext(es, e, window, bound);
    var d := RunOf(es, window, bound);
    var ledger := Pruned(LedgerOf(d.writes, e.write.path) + [e.write], e.cut - window, bound);
    FireAllAccounts(d.alarm, Priors(ledger, e.write, window), e.write, window);
  }

  lemma WindowSize(es: seq<Event>, path: Text, cutoff: int)
    ensures |Filter(OnPath(es, path), cutoff)| <= |es|
  {
    FilterSize(OnPath(es, path), cutoff);
    HistorySize(es, path);
  }

  lemma {:induction false} FilterSize(ws: seq<Write>, cutoff: int)
    ensures |Filter(ws, cutoff)| <= |ws|
  {
    if ws != [] {
      FilterSize(ws[1..], cutoff);
    }
  }

  lemma {:induction false} HistorySize(es: seq<Event>, path: Text)
    ensures |OnPath(es, path)| <= |es|
  {
    if es != [] {
      HistorySize(es[..|es| - 1], path);
    }
  }

  lemma NothingRun(window: int, bound: nat)
    ensures RunOf([], window, bound) == NEW
  {
  }

  lemma FirstOnPath(es: seq<Event>, e: Event, window: int, bound: nat)
    requires LedgerOf(RunOf(es, window, bound).writes, e.write.path) == [] && e.write.ts >= e.cut - window && bound > 0
    ensures var d := RunOf(es, window, bound);
            RunOf(es + [e], window, bound) == Detector(d.writes[e.write.path := [e.write]], d.alarm)
  {
    hide RunOf;
    RunNext(es, e, window, bound);
    assert [] + [e.write] == [e.write];
    assert Filter([e.write], e.cut - window) == [e.write];
    assert Priors([e.write], e.write, window) == [];
  }

  lemma SecondOnPath(es: seq<Event>, x: Write, e: Event, window: int, bound: nat)
    requires LedgerOf(RunOf(es, window, bound).writes, e.write.path) == [x] && Collides(x, e.write, window)
    requires x.ts >= e.cut - window && e.write.ts >= e.cut - window && bound > 1
    ensures var d := RunOf(es, window, bound);
            RunOf(es + [e], window, bound)
              == Detector(d.writes[e.write.path := [x, e.write]], FireOne(d.alarm, x, e.write, window))
  {
    hide RunOf, FireOne;
    var d := RunOf(es, window, bound);
    RunNext(es, e, window, bound);
    assert [x] + [e.write] == [x, e.write] && [x, e.write][1..] == [e.write];
    assert Filter([e.write], e.cut - window) == [e.write];
    assert Filter([x, e.write], e.cut - window) == [x] + [e.write];
    assert Priors([e.write], e.write, window) == [];
    assert Priors([x, e.write], e.write, window) == [x];
    assert FireAll(d.alarm, [x], e.write, window) == FireOne(d.alarm, x, e.write, window);
  }

  lemma RunNext(es: seq<Event>, e: Event, window: int, bound: nat)
    ensures RunOf(es + [e], window, bound) == Recorded(RunOf(es, window, bound), e.write, e.cut, window, bound)
  {
    assert (es + [e])[..|es|] == es;
  }

  /** Two inputs that fail: two files, and one file alone. */
  lemma AmbiguousKeyLosesCollision()
    ensures !Fired(FourWrites([102, COLON, COLON, 97], [98], [99], [102], [97], [98, COLON, COLON, 99]), 10, 64, [102],
                   [97], [98, COLON, COLON, 99], 3)
    ensures !Fired(FourWrites([102], [97], [98, COLON, COLON, 99], [102], [97, COLON, COLON, 98], [99]), 10, 64, [102],
                   [97, COLON, COLON, 98], [99], 3)
  {
    hide Fired, PairKey;
    KeyAmbiguous();
    ClashSwallowsCollision([102, COLON, COLON, 97], [98], [99], [102], [97], [98, COLON, COLON, 99]);
    KeyAmbiguousOnOneFile();
    ClashSwallowsCollision([102], [97], [98, COLON, COLON, 99], [102], [97, COLON, COLON, 98], [99]);
  }

  /** On one file "f": the pair "a" and "b::c" against the pair "a::b" and "c". */
  lemma KeyAmbiguousOnOneFile()
    ensures PairKey([102], [97], [98, COLON, COLON, 99]) == PairKey([102], [97, COLON, COLON, 98], [99])
  {
    assert PairKey([102], [97], [98, COLON, COLON, 99]) == [102, COLON, COLON, 97, COLON, COLON, 98, COLON, COLON, 99];
    assert PairKey([102], [97, COLON, COLON, 98], [99]) == [102, COLON, COLON, 97, COLON, COLON, 98, COLON, COLON, 99];
  }

  // ---- the exact condition ----

  ghost predicate Over(es: seq<Event>, paths: iset<Text>, actors: iset<Text>) {
    forall i :: 0 <= i < |es| ==> es[i].write.path in paths && es[i].write.actor in actors
  }

  /** The collision of the newest write with write `i` is fired. */
  ghost predicate Answered(es: seq<Event>, window: int, bound: nat, i: nat) {
    i < |es| - 1 && var w := es[|es| - 1].write; Fired(es, window, bound, w.path, es[i].write.actor, w.actor, w.ts)
  }

  /** Every visible collision of every run over these files and agents is fired. */
  ghost predicate Complete(paths: iset<Text>, actors: iset<Text>) {
    forall es: seq<Event>, window: int, bound: nat, i: nat ::
      Clocked(es) && Over(es, paths, actors) && Visible(es, window, bound, i) ==> Answered(es, window, bound, i)
  }

  /** No two different pairs of these agents on these files share a key. */
  ghost predicate NoClash(paths: iset<Text>, actors: iset<Text>) {
    forall p, a, b, q, c, d ::
      (p in paths && q in paths && a in actors && b in actors && c in actors && d in actors
       && a != b && c != d && PairKey(p, a, b) == PairKey(q, c, d)) ==> SameColliders(p, a, b, q, c, d)
  }

  /** Detection is complete for a set of files and agents if and only if no two of their pairs share a key. */
  lemma DetectionCompleteExactly(paths: iset<Text>, actors: iset<Text>)
    ensures Complete(paths, actors) <==> NoClash(paths, actors)
  {
    hide PairKey, Visible, Fired, Clocked;
    if NoClash(paths, actors) {
      forall es: seq<Event>, window: int, bound: nat, i: nat | Clocked(es) && Over(es, paths, actors)
        && Visible(es, window, bound, i)
        ensures Answered(es, window, bound, i)
      {
        ClearOver(es, paths, actors);
        assert i < |es| - 1 by { VisibleIndex(es, window, bound, i); }
        CollisionsAreFired(es, window, bound, i);
      }
    } else {
      var p, a, b, q, c, d :| p in paths && q in paths && a in actors && b in actors && c in actors && d in actors
        && a != b && c != d && PairKey(p, a, b) == PairKey(q, c, d) && !SameColliders(p, a, b, q, c, d);
      KeySymmetric(p, a, b);
      KeySymmetric(q, c, d);
      var x, y := if a == EXTRAS then b else a, if a == EXTRAS then a else b;
      var z, w := if c == EXTRAS then d else c, if c == EXTRAS then c else d;
      ClashSwallowsCollision(p, x, y, q, z, w);
      var es := FourWrites(p, x, y, q, z, w);
      assert Over(es, paths, actors);
      assert !Answered(es, 10, 64, 2);
    }
  }

  lemma ClearOver(es: seq<Event>, paths: iset<Text>, actors: iset<Text>)
    requires NoClash(paths, actors) && Over(es, paths, actors)
    ensures KeysClear(es)
  {
    hide PairKey;
  }

  lemma VisibleIndex(es: seq<Event>, window: int, bound: nat, i: nat)
    requires Visible(es, window, bound, i)
    ensures i < |es| - 1
  {
  }

  // ---- in plain terms ----

  /** A firing stands for two writes to its file by two agents, the mechanism's own aside, at most a window apart. */
  lemma FiringMeans(es: seq<Event>, window: int, bound: nat, f: Firing)
    requires Clocked(es) && f in RunOf(es, window, bound).alarm.firings
    ensures exists i, j ::
              && 0 <= i < |es| && 0 <= j < |es|
              && es[i].write == Write(f.file, f.first, f.firstTs) && es[j].write == Write(f.file, f.second, f.secondTs)
    ensures f.first != f.second && f.first != [101, 120, 116, 114, 97, 115] && 0 < f.secondTs - f.firstTs <= window
  {
    hide RunOf, Clocked;
    FiringsAreReal(es, window, bound);
    var i, j :| 0 <= i < |es| && 0 <= j < |es| && Accounts(es[i].write, es[j].write, f, window);
    assert es[i].write == Write(f.file, f.first, f.firstTs);
  }

  /** And any such pair is fired, while keys are clear, the clock has not moved past it and the ledger has room. */
  lemma PairIsFired(es: seq<Event>, window: int, bound: nat, i: nat)
    requires Clocked(es) && KeysClear(es) && i < |es| - 1
    requires var e, w := es[i].write, es[|es| - 1].write;
             && e.path == w.path && e.actor != w.actor && e.actor != [101, 120, 116, 114, 97, 115]
             && 0 < w.ts - e.ts <= window && e.ts >= es[|es| - 1].cut - window
    requires Recent(es, es[|es| - 1].write.path, es[|es| - 1].cut - window) <= bound
    ensures var e, w := es[i].write, es[|es| - 1].write;
            exists f :: f in RunOf(es, window, bound).alarm.firings
                     && f.file == w.path && (f.first, f.second) in {(e.actor, w.actor), (w.actor, e.actor)}
                     && 0 <= w.ts - f.secondTs < window
  {
    hide RunOf, Clocked, KeysClear, Filter, OnPath;
    RecentIsFiltered(es, es[|es| - 1].write.path, es[|es| - 1].cut - window);
    CollisionsAreFired(es, window, bound, i);
    var e, w, fs := es[i].write, es[|es| - 1].write, RunOf(es, window, bound).alarm.firings;
    var k :| 0 <= k < |fs| && SamePair(fs[k], w.path, e.actor, w.actor) && 0 <= w.ts - fs[k].secondTs < window;
    assert fs[k] in fs;
  }

  /** How many writes to a path are not older than the cutoff. */
  function Recent(es: seq<Event>, path: Text, cutoff: int): nat {
    if es == [] then 0
    else
      var w := es[|es| - 1].write;
      Recent(es[..|es| - 1], path, cutoff) + if w.path == path && w.ts >= cutoff then 1 else 0
  }

  lemma {:induction false} RecentIsFiltered(es: seq<Event>, path: Text, cutoff: int)
    ensures |Filter(OnPath(es, path), cutoff)| == Recent(es, path, cutoff)
  {
    if es != [] {
      var w := es[|es| - 1].write;
      RecentIsFiltered(es[..|es| - 1], path, cutoff);
      PathStep(es, path);
      FilterAppend(OnPath(es[..|es| - 1], path), [w], cutoff);
    } else {
      assert OnPath(es, path) == [];
    }
  }
}
