/**
 * The specification of `startNextServer` on values: which commands one
 * cutover cycle issues and what it does to the slot flag, and the same for a
 * run of consecutive cycles (the initial deploy followed by one cycle per
 * plugin change event).
 */
module Cycle {
  import opened Slots
  import opened Commands

  /**
   * The commands one cycle issues when the flag was `before` on entry and the
   * readiness wait ended with `wait`. The body follows the source: the flag is
   * flipped first, then "up" and the wait name the new `serverName()`, and
   * "stop" names the new `prevServerName()`.
   */
  function CycleTrace(before: bool, wait: Exit): (t: seq<Command>)
    ensures |t| == if Succeeded(wait) then 3 else 2
    ensures t[0] == Up(Active(!before)) && t[1] == WaitForIt(Active(!before))
    ensures Active(!before) != Active(before)
    ensures Succeeded(wait) ==> t[2] == Stop(Active(before))
  {
    var after := !before;
    [Up(Active(after)), WaitForIt(Active(after))] + (if Succeeded(wait) then [Stop(Active(!after))] else [])
  }

  /** The flag after `k` flips starting from `b`. */
  function Flipped(b: bool, k: nat): bool
  {
    if k == 0 then b else !Flipped(b, k - 1)
  }

  /** From the initial state the first cycle starts server1 and, once it is ready, stops server2. */
  lemma FirstCycleFromInitial(wait: Exit)
    ensures CycleTrace(false, wait)[0] == Up(Server1) && CycleTrace(false, wait)[1] == WaitForIt(Server1)
    ensures Succeeded(wait) ==> CycleTrace(false, wait)[2] == Stop(Server2)
  {
  }

  /** After k cycles the flag has changed exactly when k is odd, whatever the readiness outcomes. */
  lemma {:induction false} FlippedParity(b: bool, k: nat)
    ensures Flipped(b, k) == if k % 2 == 0 then b else !b
  {
    if k > 0 {
      FlippedParity(b, k - 1);
    }
  }

  /** From the initial state (`server1 = false`), after k cycles `server1` holds exactly when k is odd. */
  lemma InitialParity(k: nat)
    ensures Flipped(false, k) <==> k % 2 == 1
  {
    FlippedParity(false, k);
  }

  /** Appending to a trace is associative. */
  lemma AppendAssoc(a: seq<Command>, b: seq<Command>, c: seq<Command>)
    ensures (a + b) + c == a + (b + c)
  {
  }

  /** A log that holds the trace of the first i cycles, extended by cycle i, holds the trace of the first i + 1. */
  lemma LogExtend(log: seq<Command>, before: bool, waits: seq<Exit>, i: nat)
    requires i < |waits|
    ensures (log + Trace(before, waits[..i])) + CycleTrace(Flipped(before, i), waits[i]) == log + Trace(before, waits[..i + 1])
  {
    TraceSnoc(before, waits[..i], waits[i]);
    assert waits[..i + 1] == waits[..i] + [waits[i]];
    AppendAssoc(log, Trace(before, waits[..i]), CycleTrace(Flipped(before, i), waits[i]));
  }

  /** Flipping once and then k times is flipping k + 1 times. */
  lemma {:induction false} FlipShift(b: bool, k: nat)
    ensures Flipped(!b, k) == Flipped(b, k + 1)
  {
    if k > 0 {
      FlipShift(b, k - 1);
    }
  }

  /** From the initial state, the initial deploy and k change cycles leave `server1` set exactly when k is even. */
  lemma InitialRunParity(k: nat)
    ensures Flipped(false, 1 + k) <==> k % 2 == 0
  {
    InitialParity(1 + k);
  }

  /**
   * The commands of consecutive cycles, one per readiness outcome in
   * `waits`, starting from flag `before`: each cycle contributes at least its
   * "up" and its wait, and the run opens with the first cycle's "up".
   */
  function Trace(before: bool, waits: seq<Exit>): (t: seq<Command>)
    ensures |t| >= 2 * |waits|
    ensures waits != [] ==> t[0] == Up(Active(!before)) && t[1] == WaitForIt(Active(!before))
    decreases |waits|
  {
    if waits == [] then [] else CycleTrace(before, waits[0]) + Trace(!before, waits[1..])
  }

  /**
   * The change events whose cycles run before the process ends: what the
   * listener's unhandled rejection leaves. Every event is handled up to and
   * including the first one whose readiness wait rejects.
   */
  function Handled(waits: seq<Exit>): seq<Exit>
    decreases |waits|
  {
    if waits == [] then []
    else if Succeeded(waits[0]) then [waits[0]] + Handled(waits[1..])
    else [waits[0]]
  }

  /**
   * The handled events are a prefix of the events in which every event but
   * the last resolved; either all events are handled, or the last handled one
   * rejected.
   */
  lemma {:induction false} HandledShape(waits: seq<Exit>)
    ensures |Handled(waits)| <= |waits| && Handled(waits) == waits[..|Handled(waits)|]
    ensures forall j :: 0 <= j < |Handled(waits)| - 1 ==> Succeeded(waits[j])
    ensures Handled(waits) == waits || (Handled(waits) != [] && !Succeeded(waits[|Handled(waits)| - 1]))
    decreases |waits|
  {
    if waits != [] && Succeeded(waits[0]) {
      var rest := waits[1..];
      HandledShape(rest);
      var h := Handled(rest);
      assert Handled(waits) == [waits[0]] + h;
      assert h == rest[..|h|];
      assert [waits[0]] + rest[..|h|] == waits[..1 + |h|];
      forall j | 0 <= j < |h| ensures Succeeded(waits[j]) {
        if j > 0 {
          assert waits[j] == rest[j - 1];
        }
      }
      if h == rest {
        assert [waits[0]] + rest == waits;
      }
    } else if waits != [] {
      assert waits[..1] == [waits[0]];
    }
  }

  /** All events are handled and none rejected exactly when every readiness wait succeeded. */
  lemma HandledAll(waits: seq<Exit>)
    ensures (forall j :: 0 <= j < |waits| ==> Succeeded(waits[j])) <==>
      (Handled(waits) == waits && (waits == [] || Succeeded(waits[|waits| - 1])))
  {
    HandledShape(waits);
  }

  /**
   * The handled events are exactly the first n when every earlier event
   * resolved and either all n events resolved and none remain, or the n-th
   * rejected.
   */
  lemma {:induction false} HandledUpTo(waits: seq<Exit>, n: nat)
    requires n <= |waits|
    requires forall j :: 0 <= j < n - 1 ==> Succeeded(waits[j])
    requires (n == |waits| && (n == 0 || Succeeded(waits[n - 1]))) || (0 < n && !Succeeded(waits[n - 1]))
    ensures Handled(waits) == waits[..n]
    decreases n
  {
    if n == 0 {
      assert waits == [];
    } else if n == 1 && !Succeeded(waits[0]) {
      assert waits[..1] == [waits[0]];
    } else {
      var rest := waits[1..];
      assert Succeeded(waits[0]);
      forall j | 0 <= j < n - 2 ensures Succeeded(rest[j]) {
        assert rest[j] == waits[j + 1];
      }
      if n >= 2 {
        assert waits[n - 1] == rest[n - 2];
      }
      HandledUpTo(rest, n - 1);
      assert waits[..n] == [waits[0]] + rest[..n - 1];
    }
  }

  /** A run is its first cycle followed by the cycles that start from the flipped flag. */
  lemma TraceCons(before: bool, first: Exit, rest: seq<Exit>)
    ensures Trace(before, [first] + rest) == CycleTrace(before, first) + Trace(!before, rest)
  {
    assert ([first] + rest)[0] == first && ([first] + rest)[1..] == rest;
  }

  /** Extending the outcomes by one appends exactly one cycle's commands, run from the flag the earlier cycles left. */
  lemma {:induction false} TraceSnoc(before: bool, waits: seq<Exit>, w: Exit)
    ensures Trace(before, waits + [w]) == Trace(before, waits) + CycleTrace(Flipped(before, |waits|), w)
    decreases |waits|
  {
    if waits == [] {
      assert [w][1..] == [];
    } else {
      var tail := waits[1..];
      var first := CycleTrace(before, waits[0]);
      var last := CycleTrace(Flipped(before, |waits|), w);
      assert (waits + [w])[0] == waits[0] && (waits + [w])[1..] == tail + [w];
      assert Trace(before, waits + [w]) == first + Trace(!before, tail + [w]);
      TraceSnoc(!before, tail, w);
      FlipShift(before, |tail|);
      assert Trace(!before, tail + [w]) == Trace(!before, tail) + last;
      AppendAssoc(first, Trace(!before, tail), last);
    }
  }

  /** The number of stop commands in a trace. */
  function StopCount(t: seq<Command>): nat
  {
    if t == [] then 0 else (if t[0].Stop? then 1 else 0) + StopCount(t[1..])
  }

  /** The number of readiness waits that succeeded. */
  function SuccessCount(waits: seq<Exit>): nat
  {
    if waits == [] then 0 else (if Succeeded(waits[0]) then 1 else 0) + SuccessCount(waits[1..])
  }

  lemma {:induction false} StopCountAppend(a: seq<Command>, b: seq<Command>)
    ensures StopCount(a + b) == StopCount(a) + StopCount(b)
  {
    if a == [] {
      assert a + b == b;
    } else {
      assert (a + b)[0] == a[0] && (a + b)[1..] == a[1..] + b;
      StopCountAppend(a[1..], b);
    }
  }

  /** One cycle issues a stop exactly when its readiness wait succeeded. */
  lemma CycleStops(before: bool, wait: Exit)
    ensures StopCount(CycleTrace(before, wait)) == if Succeeded(wait) then 1 else 0
  {
    var c := CycleTrace(before, wait);
    var rest := c[2..];
    assert c[1..][1..] == rest;
    assert StopCount(c) == StopCount(c[1..]) == StopCount(rest);
    if Succeeded(wait) {
      assert rest[0] == c[2] && rest[1..] == [];
      assert StopCount(rest) == 1 + StopCount(rest[1..]);
    } else {
      assert rest == [];
    }
  }

  /**
   * Over any run of cycles, exactly one stop is issued per successful
   * readiness wait, and each cycle issues two commands plus its stop.
   */
  lemma {:induction false} StopsMatchSuccesses(before: bool, waits: seq<Exit>)
    ensures StopCount(Trace(before, waits)) == SuccessCount(waits)
    ensures |Trace(before, waits)| == 2 * |waits| + SuccessCount(waits)
    decreases |waits|
  {
    if waits != [] {
      StopsMatchSuccesses(!before, waits[1..]);
      var c := CycleTrace(before, waits[0]);
      StopCountAppend(c, Trace(!before, waits[1..]));
      CycleStops(before, waits[0]);
    }
  }

  /**
   * Reading of the commands as the compose runtime carries them out:
   * "up" makes a slot's service run, "stop" halts it, the wait changes nothing.
   */
  function Apply(live: set<Slot>, c: Command): set<Slot>
  {
    match c
    case Up(s) => live + {s}
    case WaitForIt(_) => live
    case Stop(s) => live - {s}
  }

  /** The services running after a trace of commands, starting from `live`. */
  function Live(live: set<Slot>, t: seq<Command>): set<Slot>
    decreases |t|
  {
    if t == [] then live else Live(Apply(live, t[0]), t[1..])
  }

  lemma {:induction false} LiveAppend(live: set<Slot>, a: seq<Command>, b: seq<Command>)
    ensures Live(live, a + b) == Live(Live(live, a), b)
    decreases |a|
  {
    if a == [] {
      assert a + b == b;
    } else {
      assert (a + b)[0] == a[0] && (a + b)[1..] == a[1..] + b;
      LiveAppend(Apply(live, a[0]), a[1..], b);
    }
  }

  /**
   * One cycle leaves its target running. A successful cycle leaves only its
   * target running. A failed one leaves everything that ran before running.
   * In particular, the slot that was serving is not stopped.
   */
  lemma CycleLive(live: set<Slot>, before: bool, wait: Exit)
    ensures Succeeded(wait) ==> Live(live, CycleTrace(before, wait)) == {Active(!before)}
    ensures !Succeeded(wait) ==> Live(live, CycleTrace(before, wait)) == live + {Active(!before)}
  {
    var t := CycleTrace(before, wait);
    var l1 := Apply(live, t[0]);
    var l2 := Apply(l1, t[1]);
    var rest := t[2..];
    assert t[1..][1..] == rest;
    assert Live(live, t) == Live(l1, t[1..]) == Live(l2, rest);
    assert l2 == live + {Active(!before)};
    if Succeeded(wait) {
      var l3 := Apply(l2, rest[0]);
      assert rest[0] == Stop(Active(before)) && rest[1..] == [];
      assert Live(l2, rest) == Live(l3, []) == l3;
      assert l3 == l2 - {Active(before)};
      forall s: Slot ensures s in l3 <==> s == Active(!before) {
        ActiveComplement(before);
      }
    } else {
      assert rest == [];
    }
  }

  /**
   * After any non-empty run of cycles, the slot the flag designates is
   * running. When the last readiness wait succeeded, it is the only one
   * running, whatever failures came earlier.
   */
  lemma {:induction false} CurrentIsLive(live: set<Slot>, before: bool, waits: seq<Exit>)
    requires waits != []
    ensures Active(Flipped(before, |waits|)) in Live(live, Trace(before, waits))
    ensures Succeeded(waits[|waits| - 1]) ==> Live(live, Trace(before, waits)) == {Active(Flipped(before, |waits|))}
  {
    var init, w := waits[..|waits| - 1], waits[|waits| - 1];
    assert waits == init + [w];
    var b := Flipped(before, |init|);
    TraceSnoc(before, init, w);
    LiveAppend(live, Trace(before, init), CycleTrace(b, w));
    CycleLive(Live(live, Trace(before, init)), b, w);
  }

  /**
   * A failed cycle followed by a successful one: the second cycle issues
   * "up" again for the slot that kept serving through the failure, then stops the slot the
   * failed cycle started.
   */
  lemma FailureThenRecovery(before: bool, failed: Exit, ok: Exit)
    requires !Succeeded(failed) && Succeeded(ok)
    ensures Trace(before, [failed, ok]) ==
      [Up(Active(!before)), WaitForIt(Active(!before)), Up(Active(before)), WaitForIt(Active(before)), Stop(Active(!before))]
  {
    assert [failed, ok][1..] == [ok] && [ok][1..] == [];
    assert Trace(!before, [ok]) == CycleTrace(!before, ok) + Trace(before, []);
    assert Trace(before, [failed, ok]) == CycleTrace(before, failed) + CycleTrace(!before, ok);
  }
}
