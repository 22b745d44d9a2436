/** Restart intensity: a queue of restart times, pruned as it grows, against the whole history of restarts. */
module RestartWindow {
  type Time = int

  predicate Sorted(h: seq<Time>) {
    forall i, j :: 0 <= i < j < |h| ==> h[i] <= h[j]
  }

  /** `popleft` while the front is older than the cutoff. */
  function Pruned(times: seq<Time>, cutoff: Time): seq<Time> {
    if times != [] && times[0] < cutoff then Pruned(times[1..], cutoff) else times
  }

  /** The queue after one more restart attempt. */
  function Recorded(times: seq<Time>, now: Time, maxSeconds: int): seq<Time> {
    Pruned(times + [now], now - maxSeconds)
  }

  method RecordRestart(times: seq<Time>, now: Time, maxRestarts: int, maxSeconds: int)
    returns (kept: seq<Time>, exceeded: bool)
    ensures kept == Recorded(times, now, maxSeconds)
    ensures exceeded == (|kept| > maxRestarts)
  {
    kept := times + [now];
    var cutoff := now - maxSeconds;
    while kept != [] && kept[0] < cutoff
      invariant Pruned(kept, cutoff) == Recorded(times, now, maxSeconds)
    {
      kept := kept[1..];
    }
    exceeded := |kept| > maxRestarts;
  }

  // ---------- The queue is the recent part of the history ----------

  /** Every entry of `h` that is not older than the cutoff. */
  function Since(h: seq<Time>, cutoff: Time): seq<Time> {
    if h == [] then [] else (if h[0] >= cutoff then [h[0]] else []) + Since(h[1..], cutoff)
  }

  function Window(h: seq<Time>, maxSeconds: int): seq<Time> {
    if h == [] then [] else Since(h, h[|h| - 1] - maxSeconds)
  }

  lemma {:induction false} AllSince(h: seq<Time>, cutoff: Time)
    requires forall i :: 0 <= i < |h| ==> h[i] >= cutoff
    ensures Since(h, cutoff) == h
  {
    if h != [] {
      AllSince(h[1..], cutoff);
    }
  }

  lemma {:induction false} PrunedIsSince(h: seq<Time>, cutoff: Time)
    requires Sorted(h)
    ensures Pruned(h, cutoff) == Since(h, cutoff)
  {
    if h != [] && h[0] < cutoff {
      PrunedIsSince(h[1..], cutoff);
    } else {
      AllSince(h, cutoff);
    }
  }

  lemma {:induction false} SinceAppend(h: seq<Time>, g: seq<Time>, cutoff: Time)
    ensures Since(h + g, cutoff) == Since(h, cutoff) + Since(g, cutoff)
  {
    if h == [] {
      assert h + g == g;
    } else {
      assert (h + g)[1..] == h[1..] + g;
      SinceAppend(h[1..], g, cutoff);
    }
  }

  lemma {:induction false} SinceTwice(h: seq<Time>, early: Time, late: Time)
    requires early <= late
    ensures Since(Since(h, early), late) == Since(h, late)
  {
    if h != [] {
      SinceTwice(h[1..], early, late);
      SinceAppend(if h[0] >= early then [h[0]] else [], Since(h[1..], early), late);
    }
  }

  lemma {:induction false} SinceIsPart(h: seq<Time>, cutoff: Time, t: Time)
    requires t in Since(h, cutoff)
    ensures t in h && t >= cutoff
  {
    if h[0] >= cutoff && t == h[0] {
    } else {
      SinceIsPart(h[1..], cutoff, t);
    }
  }

  lemma {:induction false} SinceSorted(h: seq<Time>, cutoff: Time)
    requires Sorted(h)
    ensures Sorted(Since(h, cutoff))
  {
    if h != [] {
      SinceSorted(h[1..], cutoff);
      var rest := Since(h[1..], cutoff);
      forall i | 0 <= i < |rest| ensures h[0] <= rest[i] {
        SinceIsPart(h[1..], cutoff, rest[i]);
      }
    }
  }

  lemma SortedPrefix(h: seq<Time>, now: Time)
    requires Sorted(h + [now])
    ensures Sorted(h) && forall i :: 0 <= i < |h| ==> h[i] <= now
  {
    var g := h + [now];
    assert g[|h|] == now;
    forall i | 0 <= i < |h| ensures g[i] == h[i] {}
  }

  lemma SortedAppend(h: seq<Time>, now: Time)
    requires Sorted(h) && forall i :: 0 <= i < |h| ==> h[i] <= now
    ensures Sorted(h + [now])
  {
  }

  lemma WindowSorted(h: seq<Time>, now: Time, maxSeconds: int)
    requires Sorted(h + [now])
    ensures Sorted(Window(h, maxSeconds) + [now])
  {
    var w := Window(h, maxSeconds);
    SortedPrefix(h, now);
    if h != [] {
      SinceSorted(h, h[|h| - 1] - maxSeconds);
      forall k | 0 <= k < |w| ensures w[k] <= now {
        SinceIsPart(h, h[|h| - 1] - maxSeconds, w[k]);
      }
    }
    hide Since, Window;
    SortedAppend(w, now);
  }

  /** A later cutoff can be applied to the window as well as to the history. */
  lemma WindowAgain(h: seq<Time>, now: Time, maxSeconds: int)
    requires Sorted(h + [now])
    ensures Since(Window(h, maxSeconds), now - maxSeconds) == Since(h, now - maxSeconds)
  {
    SortedPrefix(h, now);
    if h != [] {
      SinceTwice(h, h[|h| - 1] - maxSeconds, now - maxSeconds);
    }
  }

  lemma WindowEndsNow(h: seq<Time>, now: Time, maxSeconds: int)
    ensures Window(h + [now], maxSeconds) == Since(h + [now], now - maxSeconds)
  {
    assert (h + [now])[|h|] == now;
  }

  /** With a clock that does not go back, one more attempt leaves exactly the part of the history inside the window. */
  lemma RecordedIsWindow(h: seq<Time>, now: Time, maxSeconds: int)
    requires Sorted(h + [now])
    ensures Recorded(Window(h, maxSeconds), now, maxSeconds) == Window(h + [now], maxSeconds)
  {
    var cutoff := now - maxSeconds;
    var w := Window(h, maxSeconds);
    assert Recorded(w, now, maxSeconds) == Pruned(w + [now], cutoff);
    hide *;
    WindowSorted(h, now, maxSeconds);
    WindowAgain(h, now, maxSeconds);
    WindowEndsNow(h, now, maxSeconds);
    PrunedIsSince(w + [now], cutoff);
    SinceAppend(w, [now], cutoff);
    SinceAppend(h, [now], cutoff);
  }

  // ---------- The bound over a whole run ----------

  /** How many entries of `h` lie in the interval from `a` to `b`, ends included. */
  function CountIn(h: seq<Time>, a: Time, b: Time): nat {
    if h == [] then 0 else CountIn(h[..|h| - 1], a, b) + if a <= h[|h| - 1] <= b then 1 else 0
  }

  /** Each attempt, when it was recorded, found no more than `maxRestarts` in its window. */
  ghost predicate Admitted(h: seq<Time>, maxRestarts: int, maxSeconds: int) {
    forall j :: 0 < j <= |h| ==> |Window(h[..j], maxSeconds)| <= maxRestarts
  }

  lemma {:induction false} WindowCounts(h: seq<Time>, cutoff: Time, b: Time)
    requires forall i :: 0 <= i < |h| ==> h[i] <= b
    ensures CountIn(h, cutoff, b) == |Since(h, cutoff)|
  {
    if h != [] {
      var n := |h| - 1;
      WindowCounts(h[..n], cutoff, b);
      SinceAppend(h[..n], [h[n]], cutoff);
      assert h[..n] + [h[n]] == h;
    }
  }

  lemma {:induction false} CountGrows(h: seq<Time>, j: nat, a: Time, b: Time, c: Time, d: Time)
    requires j <= |h| && c <= a && b <= d
    ensures CountIn(h[..j], a, b) <= CountIn(h, c, d)
  {
    if h != [] {
      var n := |h| - 1;
      if j <= n {
        assert h[..n][..j] == h[..j];
        CountGrows(h[..n], j, a, b, c, d);
      } else {
        assert h[..j] == h && h[..n][..n] == h[..n];
        CountGrows(h[..n], n, a, b, c, d);
      }
    }
  }

  lemma CountWidens(h: seq<Time>, a: Time, b: Time, c: Time)
    requires c <= a
    ensures CountIn(h, a, b) <= CountIn(h, c, b)
  {
    CountGrows(h, |h|, a, b, c, b);
    assert h[..|h|] == h;
    hide CountIn;
  }

  lemma CountSkips(h: seq<Time>, a: Time, b: Time)
    requires h != [] && h[|h| - 1] > b
    ensures CountIn(h, a, b) == CountIn(h[..|h| - 1], a, b)
  {
  }

  lemma AdmittedBefore(h: seq<Time>, maxRestarts: int, maxSeconds: int)
    requires h != [] && Sorted(h) && Admitted(h, maxRestarts, maxSeconds)
    ensures Sorted(h[..|h| - 1]) && Admitted(h[..|h| - 1], maxRestarts, maxSeconds)
    ensures |Since(h, h[|h| - 1] - maxSeconds)| <= maxRestarts
  {
    hide Since;
    assert h[..|h|] == h && |Window(h, maxSeconds)| <= maxRestarts;
    var g := h[..|h| - 1];
    forall j | 0 < j <= |g| ensures |Window(g[..j], maxSeconds)| <= maxRestarts {
      assert g[..j] == h[..j];
    }
  }

  lemma {:induction false} AdmittedIsBounded(h: seq<Time>, maxRestarts: nat, maxSeconds: int, a: Time)
    requires Sorted(h) && Admitted(h, maxRestarts, maxSeconds)
    ensures CountIn(h, a, a + maxSeconds) <= maxRestarts
  {
    if h != [] {
      var n := |h| - 1;
      AdmittedBefore(h, maxRestarts, maxSeconds);
      if h[n] <= a + maxSeconds {
        WindowCounts(h, h[n] - maxSeconds, a + maxSeconds);
        CountWidens(h, a, a + maxSeconds, h[n] - maxSeconds);
      } else {
        AdmittedIsBounded(h[..n], maxRestarts, maxSeconds, a);
        CountSkips(h, a, a + maxSeconds);
      }
      hide *;
    }
  }

  /** No interval of `maxSeconds`, wherever it starts, holds more than `maxRestarts` restarts. */
  ghost predicate Bounded(h: seq<Time>, maxRestarts: int, maxSeconds: int) {
    forall a, b :: b == a + maxSeconds ==> CountIn(h, a, b) <= maxRestarts
  }

  lemma BoundedIsAdmitted(h: seq<Time>, j: nat, maxRestarts: nat, maxSeconds: int)
    requires Sorted(h) && 0 < j <= |h|
    requires Bounded(h, maxRestarts, maxSeconds)
    ensures |Window(h[..j], maxSeconds)| <= maxRestarts
  {
    var last := h[j - 1];
    assert h[..j][|h[..j]| - 1] == last;
    WindowCounts(h[..j], last - maxSeconds, last);
    CountGrows(h, j, last - maxSeconds, last, last - maxSeconds, last);
    assert CountIn(h, last - maxSeconds, last) <= maxRestarts;
  }

  /** The limit is exact: every attempt is admitted just when no interval of the length holds more than the limit. */
  lemma AdmittedIff(h: seq<Time>, maxRestarts: nat, maxSeconds: int)
    requires Sorted(h)
    ensures Admitted(h, maxRestarts, maxSeconds) <==> Bounded(h, maxRestarts, maxSeconds)
  {
    if Admitted(h, maxRestarts, maxSeconds) {
      forall a, b | b == a + maxSeconds ensures CountIn(h, a, b) <= maxRestarts {
        AdmittedIsBounded(h, maxRestarts, maxSeconds, a);
      }
    }
    if Bounded(h, maxRestarts, maxSeconds) {
      forall j | 0 < j <= |h| ensures |Window(h[..j], maxSeconds)| <= maxRestarts {
        BoundedIsAdmitted(h, j, maxRestarts, maxSeconds);
      }
    }
  }

  /** One more admitted attempt keeps a history admitted. */
  lemma AdmitOne(h: seq<Time>, now: Time, maxRestarts: int, maxSeconds: int)
    requires Sorted(h + [now]) && Admitted(h, maxRestarts, maxSeconds)
    requires |Recorded(Window(h, maxSeconds), now, maxSeconds)| <= maxRestarts
    ensures Admitted(h + [now], maxRestarts, maxSeconds)
  {
    RecordedIsWindow(h, now, maxSeconds);
    var g := h + [now];
    forall j | 0 < j <= |g| ensures |Window(g[..j], maxSeconds)| <= maxRestarts {
      if j <= |h| {
        assert g[..j] == h[..j];
      } else {
        assert g[..j] == g;
      }
    }
  }
}
