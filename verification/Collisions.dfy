/**
 * The sliding-window collision detector of fleet-extras: a pruned, bounded ledger of writes per path and a
 * dedupe table. The run properties relate it to detection over the full history of writes.
 */
module Collisions {
  import opened Prelude
  import opened Utf16

  datatype Write = Write(path: Text, actor: Text, ts: int)

  datatype Firing = Firing(serial: nat, file: Text, first: Text, second: Text, firstTs: int, secondTs: int)

  /** The mechanism's own label, "extras". */
  const EXTRAS: Text := [101, 120, 116, 114, 97, 115]

  const MAX_COLLISIONS: nat := 50

  const SEPARATOR: Text := [COLON, COLON]

  /** The dedupe key: the path and both actors in code-unit order, joined by "::". */
  function PairKey(path: Text, a: Text, b: Text): Text {
    if Before(b, a) then path + SEPARATOR + b + SEPARATOR + a else path + SEPARATOR + a + SEPARATOR + b
  }

  function Filter(ledger: seq<Write>, cutoff: int): seq<Write> {
    if ledger == [] then []
    else
      (if ledger[0].ts >= cutoff then [ledger[0]] else []) + Filter(ledger[1..], cutoff)
  }

  lemma {:induction false} FilterMembers(ledger: seq<Write>, cutoff: int)
    ensures forall w :: w in Filter(ledger, cutoff) <==> w in ledger && w.ts >= cutoff
  {
    if ledger != [] {
      FilterMembers(ledger[1..], cutoff);
    }
  }

  function Pruned(ledger: seq<Write>, cutoff: int, bound: nat): seq<Write> {
    Last(Filter(ledger, cutoff), bound)
  }

  /** An earlier write that collides with `w` inside the window. */
  predicate Collides(e: Write, w: Write, window: int) {
    e.actor != w.actor && e.actor != EXTRAS && w.ts - e.ts <= window && e.ts < w.ts
  }

  function Priors(ledger: seq<Write>, w: Write, window: int): (r: seq<Write>)
    ensures forall e :: e in r <==> e in ledger && Collides(e, w, window)
  {
    if ledger == [] then []
    else
      assert ledger == [ledger[0]] + ledger[1..];
      (if Collides(ledger[0], w, window) then [ledger[0]] else []) + Priors(ledger[1..], w, window)
  }

  /** The dedupe table and every collision fired so far. */
  datatype Alarm = Alarm(firedAt: map<Text, int>, firings: seq<Firing>)

  predicate Muted(alarm: Alarm, key: Text, now: int, window: int) {
    key in alarm.firedAt && now - alarm.firedAt[key] < window
  }

  function FireOne(alarm: Alarm, e: Write, w: Write, window: int): Alarm {
    var key := PairKey(w.path, e.actor, w.actor);
    if Muted(alarm, key, w.ts, window) then alarm
    else Alarm(alarm.firedAt[key := w.ts],
               alarm.firings + [Firing(|alarm.firings| + 1, w.path, e.actor, w.actor, e.ts, w.ts)])
  }

  function FireAll(alarm: Alarm, prior: seq<Write>, w: Write, window: int): Alarm
    decreases |prior|
  {
    if prior == [] then alarm else FireAll(FireOne(alarm, prior[0], w, window), prior[1..], w, window)
  }

  datatype Detector = Detector(writes: map<Text, seq<Write>>, alarm: Alarm)

  function LedgerOf(writes: map<Text, seq<Write>>, path: Text): seq<Write> {
    if path in writes then writes[path] else []
  }

  /** One recorded write; `cut` is the clock as the ledger is pruned. */
  function Recorded(d: Detector, w: Write, cut: int, window: int, bound: nat): Detector {
    var ledger := Pruned(LedgerOf(d.writes, w.path) + [w], cut - window, bound);
    Detector(d.writes[w.path := ledger], FireAll(d.alarm, Priors(ledger, w, window), w, window))
  }

  class FleetExtras {
    const collisionWindowMs: int
    const maxWritesPerPath: nat
    var writes: map<Text, seq<Write>>
    var collisionFiredAt: map<Text, int>
    var collisions: seq<Firing>
    var collisionSeq: nat
    ghost var fired: seq<Firing>

    ghost predicate Valid()
      reads this
    {
      collisionSeq == |fired| && collisions == Last(fired, MAX_COLLISIONS)
    }

    /** The detector with its full history of firings. */
    ghost function Abstract(): Detector
      reads this
    {
      Detector(writes, Alarm(collisionFiredAt, fired))
    }

    constructor (collisionWindowMs: int, maxWritesPerPath: nat)
      ensures Valid() && Abstract() == NEW
      ensures this.collisionWindowMs == collisionWindowMs && this.maxWritesPerPath == maxWritesPerPath
    {
      this.collisionWindowMs := collisionWindowMs;
      this.maxWritesPerPath := maxWritesPerPath;
      writes := map[];
      collisionFiredAt := map[];
      collisions := [];
      collisionSeq := 0;
      fired := [];
    }

    method RecordWrite(path: Text, actor: Text, ts: int, cut: int)
      requires Valid()
      modifies this
      ensures Valid()
      ensures Abstract() == Recorded(old(Abstract()), Write(path, actor, ts), cut, collisionWindowMs, maxWritesPerPath)
      ensures collisions == Last(fired, 50)
    {
      hide Recorded, Pruned, Filter, PairKey, Last, Priors;
      var record := Write(path, actor, ts);
      ghost var before := Abstract();
      AppendWrite(path, record, cut);
      var prior := Priors(LedgerOf(writes, path), record, collisionWindowMs);
      for i := 0 to |prior|
        invariant Valid()
        invariant writes == before.writes[path :=
                                            Pruned(LedgerOf(before.writes, path) + [record], cut - collisionWindowMs,
                                                   maxWritesPerPath)]
        invariant FireAll(before.alarm, prior, record, collisionWindowMs)
               == FireAll(Alarm(collisionFiredAt, fired), prior[i..], record, collisionWindowMs)
      {
        var pairKey := PairKey(path, prior[i].actor, actor);
        assert prior[i..][1..] == prior[i + 1..];
        if pairKey in collisionFiredAt && ts - collisionFiredAt[pairKey] < collisionWindowMs {
          continue;
        }
        collisionFiredAt := collisionFiredAt[pairKey := ts];
        FireCollision(path, prior[i].actor, actor, prior[i].ts, ts);
      }
      RecordedIs(before, record, cut, collisionWindowMs, maxWritesPerPath, LedgerOf(writes, path), prior);
    }

    method AppendWrite(path: Text, record: Write, cut: int)
      requires Valid()
      modifies this`writes
      ensures writes == old(writes)[path :=
                                      Pruned(LedgerOf(old(writes), path) + [record], cut - collisionWindowMs,
                                             maxWritesPerPath)]
    {
      var ledger := LedgerOf(writes, path) + [record];
      var pruned := ShiftTo(Filter(ledger, cut - collisionWindowMs), maxWritesPerPath);
      writes := writes[path := pruned];
    }

    method FireCollision(file: Text, first: Text, second: Text, firstTs: int, secondTs: int)
      requires Valid()
      modifies this`collisions, this`collisionSeq, this`fired
      ensures Valid() && fired == old(fired) + [Firing(|old(fired)| + 1, file, first, second, firstTs, secondTs)]
    {
      collisionSeq := collisionSeq + 1;
      var record := Firing(collisionSeq, file, first, second, firstTs, secondTs);
      LastNext(fired, record, MAX_COLLISIONS);
      fired := fired + [record];
      collisions := ShiftTo(collisions + [record], MAX_COLLISIONS);
    }
  }

  /** Drops from the front until the bound holds. */
  method ShiftTo<T>(s: seq<T>, bound: nat) returns (r: seq<T>)
    ensures r == Last(s, bound)
  {
    r := s;
    while |r| > bound
      invariant |r| <= |s| && r == s[|s| - |r|..]
      invariant r == s || |r| >= bound
    {
      r := r[1..];
    }
  }

  lemma RecordedIs(d: Detector, w: Write, cut: int, window: int, bound: nat, ledger: seq<Write>, prior: seq<Write>)
    requires ledger == Pruned(LedgerOf(d.writes, w.path) + [w], cut - window, bound)
    requires prior == Priors(ledger, w, window)
    ensures Recorded(d, w, cut, window, bound)
              == Detector(d.writes[w.path := ledger], FireAll(d.alarm, prior, w, window))
  {
  }

  const NEW: Detector := Detector(map[], Alarm(map[], []))
}
