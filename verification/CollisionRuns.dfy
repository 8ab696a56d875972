/** The bounded, pruned collision detector against detection over the full history of writes. */
module CollisionRuns {
  import opened Prelude
  import opened Utf16
  import opened Collisions

  /** A write as it was recorded, with the clock reading its ledger was pruned at. */
  datatype Event = Event(write: Write, cut: int)

  /** The clock never runs backwards, within one call and from call to call. */
  predicate Clocked(es: seq<Event>) {
    && (forall i :: 0 <= i < |es| ==> es[i].write.ts <= es[i].cut)
    && (forall i, j :: 0 <= i < j < |es| ==> es[i].cut <= es[j].write.ts)
  }

  function RunOf(es: seq<Event>, window: int, bound: nat): Detector {
    if es == [] then NEW
    else
      var e := es[|es| - 1];
      Recorded(RunOf(es[..|es| - 1], window, bound), e.write, e.cut, window, bound)
  }

  /** The full history of one path. */
  function OnPath(es: seq<Event>, path: Text): (r: seq<Write>)
    ensures forall w :: w in r <==> w.path == path && exists i :: 0 <= i < |es| && es[i].write == w
  {
    if es == [] then []
    else
      var e := es[|es| - 1];
      assert es == es[..|es| - 1] + [e];
      var before := OnPath(es[..|es| - 1], path);
      assert forall i :: 0 <= i < |es| - 1 ==> es[..|es| - 1][i] == es[i];
      if e.write.path == path then before + [e.write] else before
  }

  /** The clock reading at the path's last pruning. */
  function LastCut(es: seq<Event>, path: Text): int {
    if es == [] then 0
    else if es[|es| - 1].write.path == path then es[|es| - 1].cut
    else LastCut(es[..|es| - 1], path)
  }

  // ---- the ledger ----

  predicate Sorted(ws: seq<Write>) {
    forall i, j :: 0 <= i < j < |ws| ==> ws[i].ts <= ws[j].ts
  }

  lemma {:induction false} FilterEmpty(ws: seq<Write>, cutoff: int)
    requires forall i :: 0 <= i < |ws| ==> ws[i].ts < cutoff
    ensures Filter(ws, cutoff) == []
  {
    if ws != [] {
      FilterEmpty(ws[1..], cutoff);
    }
  }

  lemma {:induction false} FilterAll(ws: seq<Write>, cutoff: int)
    requires forall i :: 0 <= i < |ws| ==> ws[i].ts >= cutoff
    ensures Filter(ws, cutoff) == ws
  {
    if ws != [] {
      FilterAll(ws[1..], cutoff);
    }
  }

  lemma {:induction false} FilterAppend(a: seq<Write>, b: seq<Write>, cutoff: int)
    ensures Filter(a + b, cutoff) == Filter(a, cutoff) + Filter(b, cutoff)
  {
    if a == [] {
      assert a + b == b;
    } else {
      assert (a + b)[1..] == a[1..] + b && (a + b)[0] == a[0];
      FilterAppend(a[1..], b, cutoff);
      var head := if a[0].ts >= cutoff then [a[0]] else [];
      assert head + (Filter(a[1..], cutoff) + Filter(b, cutoff)) == head + Filter(a[1..], cutoff) + Filter(b, cutoff);
    }
  }

  /** Pruning by an older cutoff first changes nothing. */
  lemma {:induction false} FilterTwice(ws: seq<Write>, early: int, late: int)
    requires early <= late
    ensures Filter(Filter(ws, early), late) == Filter(ws, late)
  {
    if ws != [] {
      FilterTwice(ws[1..], early, late);
      var head := if ws[0].ts >= early then [ws[0]] else [];
      FilterAppend(head, Filter(ws[1..], early), late);
    }
  }

  /** Pruning a long enough tail of a sorted ledger leaves the same last elements as pruning all of it. */
  lemma FilterOfLast(ws: seq<Write>, n: nat, bound: nat, cutoff: int)
    requires Sorted(ws) && bound <= n
    ensures Last(Filter(Last(ws, n), cutoff), bound) == Last(Filter(ws, cutoff), bound)
  {
    if |ws| > n {
      var d := |ws| - n;
      assert ws == ws[..d] + ws[d..];
      FilterAppend(ws[..d], ws[d..], cutoff);
      if ws[d - 1].ts < cutoff {
        FilterEmpty(ws[..d], cutoff);
      } else {
        FilterAll(ws[d..], cutoff);
        LastOfAppend(Filter(ws[..d], cutoff), ws[d..], bound);
      }
    }
  }

  lemma LastOfAppend<T>(a: seq<T>, b: seq<T>, n: nat)
    requires n <= |b|
    ensures Last(a + b, n) == Last(b, n)
  {
    assert (a + b)[|a| + |b| - n..] == b[|b| - n..];
  }

  lemma {:induction false} HistorySorted(es: seq<Event>, path: Text)
    requires Clocked(es)
    ensures Sorted(OnPath(es, path))
    ensures forall w :: w in OnPath(es, path) ==> es != [] && w.ts <= es[|es| - 1].cut
  {
    if es != [] {
      var init := es[..|es| - 1];
      assert forall i :: 0 <= i < |init| ==> init[i] == es[i];
      HistorySorted(init, path);
      var before := OnPath(init, path);
      forall i | 0 <= i < |before| ensures before[i].ts <= es[|es| - 1].write.ts {
        assert before[i] in before;
      }
    }
  }

  lemma {:induction false} CutsGrow(es: seq<Event>, path: Text)
    requires Clocked(es) && OnPath(es, path) != []
    ensures es != [] && LastCut(es, path) <= es[|es| - 1].cut
  {
    var init := es[..|es| - 1];
    if es[|es| - 1].write.path != path {
      assert forall i :: 0 <= i < |init| ==> init[i] == es[i];
      CutsGrow(init, path);
    }
  }

  /** One write keeps the ledger the bounded window over the full history. */
  lemma PruneStep(history: seq<Write>, w: Write, early: int, late: int, bound: nat)
    requires Sorted(history + [w]) && early <= late
    ensures Pruned(Last(Filter(history, early), bound) + [w], late, bound) == Last(Filter(history + [w], late), bound)
  {
    var kept := Filter(history, early);
    SortedFilter(history, w, early);
    var all := kept + [w];
    assert Last(kept, bound) + [w] == Last(all, bound + 1) by {
      if |kept| > bound {
        assert all[|all| - (bound + 1)..] == kept[|kept| - bound..] + [w];
      }
    }
    FilterOfLast(all, bound + 1, bound, late);
    FilterAppend(kept, [w], late);
    FilterTwice(history, early, late);
    FilterAppend(history, [w], late);
  }

  lemma {:induction false} SortedFilter(ws: seq<Write>, w: Write, cutoff: int)
    requires Sorted(ws + [w])
    ensures Sorted(Filter(ws, cutoff) + [w])
  {
    hide Sorted;
    if ws != [] {
      assert ws + [w] == [ws[0]] + (ws[1..] + [w]);
      SortedUncons(ws[0], ws[1..] + [w]);
      SortedFilter(ws[1..], w, cutoff);
      FilterMembers(ws[1..], cutoff);
      var rest := Filter(ws[1..], cutoff) + [w];
      forall x | x in rest ensures ws[0].ts <= x.ts {
        assert x in ws[1..] + [w];
      }
      SortedCons(ws[0], rest);
      assert ws[0].ts >= cutoff ==> Filter(ws, cutoff) + [w] == [ws[0]] + rest;
      assert ws[0].ts < cutoff ==> Filter(ws, cutoff) + [w] == rest;
    }
  }

  lemma SortedUncons(x: Write, ws: seq<Write>)
    requires Sorted([x] + ws)
    ensures Sorted(ws) && forall w :: w in ws ==> x.ts <= w.ts
  {
    var all := [x] + ws;
    assert forall i :: 0 <= i < |ws| ==> ws[i] == all[i + 1];
    assert all[0] == x;
  }

  lemma SortedCons(x: Write, ws: seq<Write>)
    requires Sorted(ws) && forall w :: w in ws ==> x.ts <= w.ts
    ensures Sorted([x] + ws)
  {
  }

  /** The window over the full history of a path, cut at its last pruning and bounded to its last `bound` writes. */
  function WindowOf(es: seq<Event>, path: Text, window: int, bound: nat): seq<Write> {
    Last(Filter(OnPath(es, path), LastCut(es, path) - window), bound)
  }

  lemma WindowStep(es: seq<Event>, path: Text, window: int, bound: nat)
    requires Clocked(es) && es != []
    ensures var e, before := es[|es| - 1], WindowOf(es[..|es| - 1], path, window, bound);
            WindowOf(es, path, window, bound)
            == if e.write.path == path then Pruned(before + [e.write], e.cut - window, bound) else before
  {
    hide Clocked, Pruned, Sorted, Last, Filter, OnPath, LastCut;
    var e, init := es[|es| - 1], es[..|es| - 1];
    PathStep(es, path);
    if e.write.path == path {
      HistorySorted(es, path);
      CutBefore(es, path);
      NothingToFilter(LastCut(init, path) - window);
      NothingToFilter(e.cut - window);
      var early := if OnPath(init, path) == [] then e.cut else LastCut(init, path);
      PruneStep(OnPath(init, path), e.write, early - window, e.cut - window, bound);
    }
  }

  lemma NothingToFilter(cutoff: int)
    ensures Filter([], cutoff) == []
  {
  }

  lemma PathStep(es: seq<Event>, path: Text)
    requires es != []
    ensures var e, init := es[|es| - 1], es[..|es| - 1];
            && OnPath(es, path) == (if e.write.path == path then OnPath(init, path) + [e.write] else OnPath(init, path))
            && LastCut(es, path) == if e.write.path == path then e.cut else LastCut(init, path)
  {
  }

  /** The pruned ledger of a path is exactly the window over its full history: nothing else is ever lost. */
  lemma {:induction false} LedgerExact(es: seq<Event>, path: Text, window: int, bound: nat)
    requires Clocked(es)
    ensures LedgerOf(RunOf(es, window, bound).writes, path) == WindowOf(es, path, window, bound)
  {
    hide Clocked, Recorded, Pruned, WindowOf, LedgerOf, OnPath, LastCut, Filter, Last;
    if es == [] {
      NothingYet(path, window, bound);
    } else {
      var e, init := es[|es| - 1], es[..|es| - 1];
      RecordedLedger(RunOf(init, window, bound), e.write, e.cut, window, bound, path);
      ClockedInit(es);
      LedgerExact(init, path, window, bound);
      WindowStep(es, path, window, bound);
    }
  }

  lemma NothingYet(path: Text, window: int, bound: nat)
    ensures LedgerOf(RunOf([], window, bound).writes, path) == WindowOf([], path, window, bound)
  {
  }

  lemma RecordedLedger(d: Detector, w: Write, cut: int, window: int, bound: nat, path: Text)
    ensures LedgerOf(Recorded(d, w, cut, window, bound).writes, path)
         == if path == w.path then Pruned(LedgerOf(d.writes, path) + [w], cut - window, bound)
           else LedgerOf(d.writes, path)
  {
  }

  lemma ClockedInit(es: seq<Event>)
    requires Clocked(es) && es != []
    ensures Clocked(es[..|es| - 1])
  {
    var init := es[..|es| - 1];
    assert forall i :: 0 <= i < |init| ==> init[i] == es[i];
  }

  lemma CutBefore(es: seq<Event>, path: Text)
    requires Clocked(es) && es != []
    ensures var init := es[..|es| - 1]; OnPath(init, path) != [] ==> LastCut(init, path) <= es[|es| - 1].cut
  {
    var init := es[..|es| - 1];
    if OnPath(init, path) != [] {
      ClockedInit(es);
      CutsGrow(init, path);
      assert init[|init| - 1] == es[|es| - 2];
    }
  }

  // ---- the dedupe table ----

  function KeyOf(f: Firing): Text {
    PairKey(f.file, f.first, f.second)
  }

  /** The table holds, for every key, its last firing; firings of one key are a window apart. */
  ghost predicate AlarmKept(alarm: Alarm, now: int, window: int) {
    TableKept(alarm, now) && Spaced(alarm, window)
  }

  ghost predicate TableKept(alarm: Alarm, now: int) {
    && (forall i :: 0 <= i < |alarm.firings| ==>
          && alarm.firings[i].serial == i + 1
          && KeyOf(alarm.firings[i]) in alarm.firedAt
          && alarm.firings[i].secondTs <= alarm.firedAt[KeyOf(alarm.firings[i])])
    && (forall k :: k in alarm.firedAt ==>
          && alarm.firedAt[k] <= now
          && exists i ::
               && 0 <= i < |alarm.firings| && KeyOf(alarm.firings[i]) == k
               && alarm.firings[i].secondTs == alarm.firedAt[k])
  }

  ghost predicate Spaced(alarm: Alarm, window: int) {
    forall i, j :: 0 <= i < j < |alarm.firings| && KeyOf(alarm.firings[i]) == KeyOf(alarm.firings[j]) ==>
      alarm.firings[j].secondTs - alarm.firings[i].secondTs >= window
  }

  lemma FireOneKeeps(alarm: Alarm, e: Write, w: Write, window: int)
    requires AlarmKept(alarm, w.ts, window)
    ensures AlarmKept(FireOne(alarm, e, w, window), w.ts, window)
    ensures window > 0 ==> Muted(FireOne(alarm, e, w, window), PairKey(w.path, e.actor, w.actor), w.ts, window)
    ensures forall k :: Muted(alarm, k, w.ts, window) ==> Muted(FireOne(alarm, e, w, window), k, w.ts, window)
  {
    hide PairKey, TableKept, Spaced;
    FireOneTable(alarm, e, w, window);
    FireOneSpaced(alarm, e, w, window);
  }

  lemma FireOneTable(alarm: Alarm, e: Write, w: Write, window: int)
    requires TableKept(alarm, w.ts)
    ensures TableKept(FireOne(alarm, e, w, window), w.ts)
  {
    hide PairKey;
    var next := FireOne(alarm, e, w, window);
    if next != alarm {
      var n := |alarm.firings|;
      assert next.firings[n].secondTs == w.ts && KeyOf(next.firings[n]) == PairKey(w.path, e.actor, w.actor);
      assert forall i :: 0 <= i < n ==> next.firings[i] == alarm.firings[i];
      forall k | k in next.firedAt
        ensures exists i ::
                  0 <= i < |next.firings| && KeyOf(next.firings[i]) == k && next.firings[i].secondTs == next.firedAt[k]
      {
        if k in alarm.firedAt && k != PairKey(w.path, e.actor, w.actor) {
          var i :| 0 <= i < n && KeyOf(alarm.firings[i]) == k && alarm.firings[i].secondTs == alarm.firedAt[k];
          assert KeyOf(next.firings[i]) == k;
        }
      }
    }
  }

  lemma FireOneSpaced(alarm: Alarm, e: Write, w: Write, window: int)
    requires TableKept(alarm, w.ts) && Spaced(alarm, window)
    ensures Spaced(FireOne(alarm, e, w, window), window)
  {
    hide PairKey;
    var next := FireOne(alarm, e, w, window);
    if next != alarm {
      assert forall i :: 0 <= i < |alarm.firings| ==> next.firings[i] == alarm.firings[i];
    }
  }

  lemma {:induction false} FireAllKeeps(alarm: Alarm, prior: seq<Write>, w: Write, window: int)
    requires AlarmKept(alarm, w.ts, window)
    ensures AlarmKept(FireAll(alarm, prior, w, window), w.ts, window)
    ensures forall k :: Muted(alarm, k, w.ts, window) ==> Muted(FireAll(alarm, prior, w, window), k, w.ts, window)
    ensures window > 0 ==> forall e :: e in prior ==>
              Muted(FireAll(alarm, prior, w, window), PairKey(w.path, e.actor, w.actor), w.ts, window)
    decreases |prior|
  {
    hide AlarmKept, FireOne, Muted, PairKey;
    if prior != [] {
      FireOneKeeps(alarm, prior[0], w, window);
      FireAllKeeps(FireOne(alarm, prior[0], w, window), prior[1..], w, window);
    }
  }

  // ---- the firings against the full history ----

  /** A firing that two real writes account for. */
  ghost predicate Realized(es: seq<Event>, f: Firing, window: int) {
    exists i, j :: 0 <= i < |es| && 0 <= j < |es| && Accounts(es[i].write, es[j].write, f, window)
  }

  predicate Accounts(e: Write, w: Write, f: Firing, window: int) {
    e.path == w.path && Collides(e, w, window) && f == Firing(f.serial, w.path, e.actor, w.actor, e.ts, w.ts)
  }

  lemma {:induction false} LedgerIsHistory(es: seq<Event>, path: Text, window: int, bound: nat)
    ensures forall w :: w in LedgerOf(RunOf(es, window, bound).writes, path) ==> w in OnPath(es, path)
  {
    hide Recorded, Pruned;
    if es != [] {
      var e, init := es[|es| - 1], es[..|es| - 1];
      LedgerIsHistory(init, path, window, bound);
      RecordedLedger(RunOf(init, window, bound), e.write, e.cut, window, bound, path);
      PrunedMembers(LedgerOf(RunOf(init, window, bound).writes, path) + [e.write], e.cut - window, bound);
    }
  }

  lemma PrunedMembers(ws: seq<Write>, cutoff: int, bound: nat)
    ensures forall w :: w in Pruned(ws, cutoff, bound) ==> w in ws && w.ts >= cutoff
  {
    FilterMembers(ws, cutoff);
  }

  lemma {:induction false} FireAllAccounts(alarm: Alarm, prior: seq<Write>, w: Write, window: int)
    ensures forall f :: f in FireAll(alarm, prior, w, window).firings ==>
      f in alarm.firings || exists e :: e in prior && f == Firing(f.serial, w.path, e.actor, w.actor, e.ts, w.ts)
    ensures forall f :: f in alarm.firings ==> f in FireAll(alarm, prior, w, window).firings
    decreases |prior|
  {
    hide Muted, PairKey;
    if prior != [] {
      FireAllAccounts(FireOne(alarm, prior[0], w, window), prior[1..], w, window);
    }
  }

  /** Every firing has a real earlier write by another agent on the same file inside the window. */
  lemma {:induction false} FiringsAreReal(es: seq<Event>, window: int, bound: nat)
    ensures forall f :: f in RunOf(es, window, bound).alarm.firings ==> Realized(es, f, window)
  {
    hide FireAll, Collides, Pruned, Realized;
    if es != [] {
      var e, init := es[|es| - 1], es[..|es| - 1];
      var d := RunOf(init, window, bound);
      FiringsAreReal(init, window, bound);
      var prior := Priors(LedgerOf(Recorded(d, e.write, e.cut, window, bound).writes, e.write.path), e.write, window);
      FireAllAccounts(d.alarm, prior, e.write, window);
      LedgerIsHistory(es, e.write.path, window, bound);
      forall f | f in RunOf(es, window, bound).alarm.firings ensures Realized(es, f, window) {
        if f in d.alarm.firings {
          RealizedLonger(init, e, f, window);
          assert es == init + [e];
        } else {
          var x :| x in prior && f == Firing(f.serial, e.write.path, x.actor, e.write.actor, x.ts, e.write.ts);
          RealizedNow(es, x, f, window);
        }
      }
    }
  }

  lemma RealizedLonger(es: seq<Event>, e: Event, f: Firing, window: int)
    requires Realized(es, f, window)
    ensures Realized(es + [e], f, window)
  {
    var i, j :| 0 <= i < |es| && 0 <= j < |es| && Accounts(es[i].write, es[j].write, f, window);
    assert (es + [e])[i] == es[i] && (es + [e])[j] == es[j];
  }

  lemma RealizedNow(es: seq<Event>, x: Write, f: Firing, window: int)
    requires es != [] && x in OnPath(es, es[|es| - 1].write.path)
    requires var w := es[|es| - 1].write;
             Collides(x, w, window) && f == Firing(f.serial, w.path, x.actor, w.actor, x.ts, w.ts)
    ensures Realized(es, f, window)
  {
    var i :| 0 <= i < |es| && es[i].write == x;
    assert Accounts(es[i].write, es[|es| - 1].write, f, window);
  }

  /** The dedupe table and the spacing of firings hold after every run. */
  lemma {:induction false} AlarmKeptByRun(es: seq<Event>, window: int, bound: nat)
    requires Clocked(es)
    ensures es != [] ==> AlarmKept(RunOf(es, window, bound).alarm, es[|es| - 1].write.ts, window)
    ensures es == [] ==> RunOf(es, window, bound) == NEW
  {
    hide FireAll, Priors, Pruned;
    if es != [] {
      var e, init := es[|es| - 1], es[..|es| - 1];
      ClockedInit(es);
      AlarmKeptByRun(init, window, bound);
      var d := RunOf(init, window, bound);
      if init != [] {
        assert init[|init| - 1] == es[|es| - 2];
      }
      AlarmLater(d.alarm, if init == [] then e.write.ts else init[|init| - 1].write.ts, e.write.ts, window);
      var prior := Priors(LedgerOf(Recorded(d, e.write, e.cut, window, bound).writes, e.write.path), e.write, window);
      FireAllKeeps(d.alarm, prior, e.write, window);
    }
  }

  lemma AlarmLater(alarm: Alarm, now: int, later: int, window: int)
    requires AlarmKept(alarm, now, window) && now <= later
    ensures AlarmKept(alarm, later, window)
  {
  }

  predicate SamePair(f: Firing, file: Text, a: Text, b: Text) {
    f.file == file && ((f.first == a && f.second == b) || (f.first == b && f.second == a))
  }

  /** Firings for one file and one unordered pair of actors are at least one window apart, and numbered in order. */
  lemma FiringsSpaced(es: seq<Event>, window: int, bound: nat, i: nat, j: nat)
    requires Clocked(es) && i < j < |RunOf(es, window, bound).alarm.firings|
    ensures var fs := RunOf(es, window, bound).alarm.firings;
            && fs[i].serial == i + 1 && fs[j].serial == j + 1
            && (SamePair(fs[j], fs[i].file, fs[i].first, fs[i].second) ==> fs[j].secondTs - fs[i].secondTs >= window)
  {
    AlarmKeptByRun(es, window, bound);
    var fs := RunOf(es, window, bound).alarm.firings;
    BeforeTrichotomy(fs[i].first, fs[i].second);
  }
}
