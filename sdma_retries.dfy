/**
 * The retry loop of the SDMA branch of doAsyncReadWrite, over any attempt
 * function: sdma_access is called again only after a timeout, at most
 * SDMA_RETRY_COUNT times, each call from where the one before (with its
 * recovery) left the driver.
 */
module SdmaRetries {
  import opened Platform
  import opened Hardware
  import opened SdmaRuns

  /** One sdma_access call: how it went, the read clock and command count it left
      the driver at (after the recovery, when it timed out on its command),
      whether that recovery left the card unready, the events it appended to the
      trace, and the card's addressing (block or byte) it left. */
  datatype Attempt = Attempt(run: SdmaRun, clock: nat, issued: nat, failed: bool, sent: seq<Event>, highCapacity: bool)

  /** The retry loop as far as it went: its attempts, the read clock, command
      count and card addressing each started at, and the read clock, command
      count, card presence, appended events and addressing it left. */
  datatype Retries = Retries(runs: seq<SdmaRun>, starts: seq<(nat, nat, bool)>, clock: nat, issued: nat,
                             presence: Presence, sent: seq<Event>, highCapacity: bool)

  /** The attempt `a`, started at `start`, followed by the loop `r`. */
  function Preceded(a: Attempt, start: (nat, nat, bool), r: Retries): Retries
  {
    Retries([a.run] + r.runs, [start] + r.starts, r.clock, r.issued, r.presence, a.sent + r.sent, r.highCapacity)
  }

  /** The loop with `left` tries left, from read `t`, `n` commands issued, the
      card presence `p` and the addressing `hc`, where `step(t, n, hc)` is the
      attempt made from there: one attempt, then, only after a timeout and while
      tries are left, the loop again from where the attempt left the driver. A
      failed recovery marks the card for remount. */
  function RetriesFrom(step: (nat, nat, bool) -> Attempt, t: nat, n: nat, p: Presence, hc: bool, left: nat): (r: Retries)
    requires left >= 1
    ensures 1 <= |r.runs| == |r.starts| <= left
    decreases left
  {
    var a := step(t, n, hc);
    var q := if a.failed then Remount else p;
    if SdmaStatus(a.run) != Timeout || left == 1 then Retries([a.run], [(t, n, hc)], a.clock, a.issued, q, a.sent, a.highCapacity)
    else Preceded(a, (t, n, hc), RetriesFrom(step, a.clock, a.issued, q, a.highCapacity, left - 1))
  }

  /** The status the loop returns: that of its last attempt. */
  function Status(r: Retries): IoStatus
    requires r.runs != []
  {
    SdmaStatus(r.runs[|r.runs| - 1])
  }

  /** The loops `r` and `s` end alike: at the same read clock, command count,
      card presence and addressing, with the same status. */
  predicate SameEnd(r: Retries, s: Retries)
    requires r.runs != [] && s.runs != []
  {
    r.clock == s.clock && r.issued == s.issued && r.presence == s.presence && r.highCapacity == s.highCapacity
    && Status(r) == Status(s)
  }

  /** The attempt `step` makes from the start `s`: its read clock, command count
      and addressing. */
  function MadeFrom(step: (nat, nat, bool) -> Attempt, s: (nat, nat, bool)): Attempt
  {
    step(s.0, s.1, s.2)
  }

  /** The events the attempts made from `starts` append, one after the other. */
  function Joined(step: (nat, nat, bool) -> Attempt, starts: seq<(nat, nat, bool)>): seq<Event>
  {
    if starts == [] then [] else MadeFrom(step, starts[0]).sent + Joined(step, starts[1..])
  }

  /** After an attempt that timed out with tries left, the loop ends as the loop
      from where that attempt left the driver does, and appends the attempt's
      events and then that loop's. */
  lemma RetriesNext(step: (nat, nat, bool) -> Attempt, t: nat, n: nat, p: Presence, hc: bool, left: nat)
    requires left > 1 && SdmaStatus(step(t, n, hc).run) == Timeout
    ensures var a := step(t, n, hc);
      var rest := RetriesFrom(step, a.clock, a.issued, if a.failed then Remount else p, a.highCapacity, left - 1);
      SameEnd(RetriesFrom(step, t, n, p, hc, left), rest) && RetriesFrom(step, t, n, p, hc, left).sent == a.sent + rest.sent
  {
    var a := step(t, n, hc);
    var rest := RetriesFrom(step, a.clock, a.issued, if a.failed then Remount else p, a.highCapacity, left - 1);
    var r := RetriesFrom(step, t, n, p, hc, left);
    assert r == Preceded(a, (t, n, hc), rest);
    assert r.runs[|r.runs| - 1] == rest.runs[|rest.runs| - 1];
  }

  /** Each attempt of the loop `r` is the one `step` makes from where it
      started, and every attempt but the last timed out. */
  predicate Shaped(step: (nat, nat, bool) -> Attempt, r: Retries)
  {
    |r.runs| == |r.starts|
    && (forall i :: 0 <= i < |r.runs| ==> r.runs[i] == MadeFrom(step, r.starts[i]).run)
    && RetriedOnTimeout(r.runs)
  }

  /** A timed-out attempt made from `s`, put before a loop of that shape, gives a
      loop of that shape. */
  lemma ShapedCons(step: (nat, nat, bool) -> Attempt, s: (nat, nat, bool), rest: Retries, r: Retries)
    requires Shaped(step, rest) && rest.runs != [] && SdmaStatus(MadeFrom(step, s).run) == Timeout
    requires r == Preceded(MadeFrom(step, s), s, rest)
    ensures Shaped(step, r)
  {
    forall i | 0 < i < |r.runs|
      ensures r.runs[i] == MadeFrom(step, r.starts[i]).run
    {
      assert r.runs[i] == rest.runs[i - 1] && r.starts[i] == rest.starts[i - 1];
    }
    RetriedCons(MadeFrom(step, s).run, rest.runs);
  }

  /** One pass of the loop with `left` tries left, from a point where the loop
      ends as `whole` does and the events `before` already sent followed by
      what the loop appends are what `whole` appends after `trace0`: once the
      attempt `step(t, n, hc)` appended its events, either it did not time out
      or was the last try, and the driver is where `whole` ends with all of
      `whole`'s events sent; or the loop from where the attempt left the driver,
      with one try fewer, is again such a point. */
  lemma RetriesPass(step: (nat, nat, bool) -> Attempt, t: nat, n: nat, p: Presence, hc: bool, left: nat, whole: Retries,
                    trace0: seq<Event>, before: seq<Event>, after: seq<Event>)
    requires left >= 1 && whole.runs != []
    requires var here := RetriesFrom(step, t, n, p, hc, left);
      SameEnd(here, whole) && trace0 + whole.sent == before + here.sent
    requires after == before + step(t, n, hc).sent
    ensures var a := step(t, n, hc);
      var q := if a.failed then Remount else p;
      && (SdmaStatus(a.run) != Timeout || left == 1 ==>
            whole.clock == a.clock && whole.issued == a.issued && whole.presence == q && whole.highCapacity == a.highCapacity
            && Status(whole) == SdmaStatus(a.run) && after == trace0 + whole.sent)
      && (SdmaStatus(a.run) == Timeout && left > 1 ==>
            var next := RetriesFrom(step, a.clock, a.issued, q, a.highCapacity, left - 1);
            SameEnd(next, whole) && trace0 + whole.sent == after + next.sent)
  {
    var a := step(t, n, hc);
    var q := if a.failed then Remount else p;
    var here := RetriesFrom(step, t, n, p, hc, left);
    if SdmaStatus(a.run) == Timeout && left > 1 {
      var next := RetriesFrom(step, a.clock, a.issued, q, a.highCapacity, left - 1);
      RetriesNext(step, t, n, p, hc, left);
      assert before + here.sent == before + (a.sent + next.sent);
    } else {
      assert here.sent == a.sent;
    }
  }

  /** The loop's attempts, the first from `t`, `n` and `hc`, are each the one
      `step` makes from where it started, and every attempt but the last timed
      out. */
  lemma {:induction false} RetriesShape(step: (nat, nat, bool) -> Attempt, t: nat, n: nat, p: Presence, hc: bool, left: nat)
    requires left >= 1
    ensures var r := RetriesFrom(step, t, n, p, hc, left); r.starts[0] == (t, n, hc) && Shaped(step, r)
    decreases left
  {
    var a := step(t, n, hc);
    var q := if a.failed then Remount else p;
    var r := RetriesFrom(step, t, n, p, hc, left);
    if SdmaStatus(a.run) == Timeout && left > 1 {
      var rest := RetriesFrom(step, a.clock, a.issued, q, a.highCapacity, left - 1);
      assert r == Preceded(MadeFrom(step, (t, n, hc)), (t, n, hc), rest);
      RetriesShape(step, a.clock, a.issued, q, a.highCapacity, left - 1);
      ShapedCons(step, (t, n, hc), rest, r);
    }
  }

  /** The loop appends the events of its attempts, in order. */
  lemma {:induction false} RetriesSent(step: (nat, nat, bool) -> Attempt, t: nat, n: nat, p: Presence, hc: bool, left: nat)
    requires left >= 1
    ensures var r := RetriesFrom(step, t, n, p, hc, left); r.sent == Joined(step, r.starts)
    decreases left
  {
    var a := step(t, n, hc);
    var q := if a.failed then Remount else p;
    var r := RetriesFrom(step, t, n, p, hc, left);
    if SdmaStatus(a.run) == Timeout && left > 1 {
      var rest := RetriesFrom(step, a.clock, a.issued, q, a.highCapacity, left - 1);
      assert r == Preceded(a, (t, n, hc), rest);
      RetriesSent(step, a.clock, a.issued, q, a.highCapacity, left - 1);
      assert r.starts[1..] == rest.starts;
    } else {
      assert r.starts[1..] == [];
      assert r.sent == a.sent + [];
    }
  }

  /** The loop makes at most `left` attempts and stops before the last try only
      after an attempt that did not time out. */
  lemma {:induction false} RetriesStop(step: (nat, nat, bool) -> Attempt, t: nat, n: nat, p: Presence, hc: bool, left: nat)
    requires left >= 1
    ensures var r := RetriesFrom(step, t, n, p, hc, left);
      |r.runs| < left ==> SdmaStatus(r.runs[|r.runs| - 1]) != Timeout
    decreases left
  {
    var a := step(t, n, hc);
    var q := if a.failed then Remount else p;
    if SdmaStatus(a.run) == Timeout && left > 1 {
      var r, rest := RetriesFrom(step, t, n, p, hc, left), RetriesFrom(step, a.clock, a.issued, q, a.highCapacity, left - 1);
      assert r.runs == [a.run] + rest.runs;
      RetriesStop(step, a.clock, a.issued, q, a.highCapacity, left - 1);
      assert r.runs[|r.runs| - 1] == rest.runs[|rest.runs| - 1];
    }
  }

  /** The start the attempt made from `s` leaves for the next one: its read
      clock, command count and addressing. */
  function NextStart(step: (nat, nat, bool) -> Attempt, s: (nat, nat, bool)): (nat, nat, bool)
  {
    var a := MadeFrom(step, s);
    (a.clock, a.issued, a.highCapacity)
  }

  /** Each attempt of the loop `r` after the first starts at the read clock,
      command count and addressing the one before it left the driver with, and
      the loop leaves them where its last attempt did. */
  predicate Linked(step: (nat, nat, bool) -> Attempt, r: Retries)
  {
    1 <= |r.starts|
    && (forall i :: 0 < i < |r.starts| ==> r.starts[i] == NextStart(step, r.starts[i - 1]))
    && (r.clock, r.issued, r.highCapacity) == NextStart(step, r.starts[|r.starts| - 1])
  }

  /** An attempt made from `s` that leaves the start of a linked loop, put
      before it, gives a linked loop. */
  lemma LinkedCons(step: (nat, nat, bool) -> Attempt, s: (nat, nat, bool), rest: Retries, r: Retries)
    requires Linked(step, rest) && rest.starts[0] == NextStart(step, s)
    requires r == Preceded(MadeFrom(step, s), s, rest)
    ensures Linked(step, r)
  {
    forall i | 0 < i < |r.starts|
      ensures r.starts[i] == NextStart(step, r.starts[i - 1])
    {
      assert r.starts[i] == rest.starts[i - 1];
      if i > 1 {
        assert r.starts[i - 1] == rest.starts[i - 2];
      }
    }
    assert r.starts[|r.starts| - 1] == rest.starts[|rest.starts| - 1];
  }

  /** Each attempt after the first starts at the read clock, command count and
      addressing the one before it left the driver with, and the loop leaves
      them where the last attempt did. */
  lemma {:induction false} RetriesChained(step: (nat, nat, bool) -> Attempt, t: nat, n: nat, p: Presence, hc: bool, left: nat)
    requires left >= 1
    ensures Linked(step, RetriesFrom(step, t, n, p, hc, left))
    decreases left
  {
    var a := step(t, n, hc);
    var q := if a.failed then Remount else p;
    var r := RetriesFrom(step, t, n, p, hc, left);
    if SdmaStatus(a.run) == Timeout && left > 1 {
      var rest := RetriesFrom(step, a.clock, a.issued, q, a.highCapacity, left - 1);
      assert r == Preceded(MadeFrom(step, (t, n, hc)), (t, n, hc), rest);
      RetriesChained(step, a.clock, a.issued, q, a.highCapacity, left - 1);
      RetriesShape(step, a.clock, a.issued, q, a.highCapacity, left - 1);
      LinkedCons(step, (t, n, hc), rest, r);
    } else {
      assert r.starts == [(t, n, hc)];
    }
  }

  /** The loop marks the card for remount exactly when the recovery after one of
      its attempts failed; otherwise it leaves the presence `p` as it was. */
  lemma {:induction false} RetriesPresence(step: (nat, nat, bool) -> Attempt, t: nat, n: nat, p: Presence, hc: bool, left: nat)
    requires left >= 1
    ensures var r := RetriesFrom(step, t, n, p, hc, left);
      r.presence == if exists s :: s in r.starts && MadeFrom(step, s).failed then Remount else p
    decreases left
  {
    var a := step(t, n, hc);
    var q := if a.failed then Remount else p;
    var r := RetriesFrom(step, t, n, p, hc, left);
    if SdmaStatus(a.run) == Timeout && left > 1 {
      var rest := RetriesFrom(step, a.clock, a.issued, q, a.highCapacity, left - 1);
      assert r == Preceded(a, (t, n, hc), rest);
      RetriesPresence(step, a.clock, a.issued, q, a.highCapacity, left - 1);
      assert MadeFrom(step, (t, n, hc)) == a;
      assert forall s :: s in r.starts <==> s == (t, n, hc) || s in rest.starts;
    } else {
      assert MadeFrom(step, (t, n, hc)) == a;
      assert r.starts == [(t, n, hc)];
    }
  }
}
