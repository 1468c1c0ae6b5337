/** Polling the head tracker: a condition must hold in two polls in a row, within a window. */
module Polling {
  import opened Results
  import opened HeadPose

  const STEADY := 2
  const POLL_MS := 40.0

  type Delay = x: real | x >= 0.0

  /** What a capture cannot choose: what the tracker reads, how late each wait returns, and
    * which frames the camera delivers. */
  datatype World = World(readings: nat -> Option<BrowserPose>, lateness: nat -> Delay, delivers: nat -> bool)

  /** A time by the clock, and how many waits went before: the tracker reads `readings(tick)`. */
  datatype Moment = Moment(at: real, tick: nat)

  ghost predicate Twice(w: World, holds: Option<BrowserPose> -> bool, k: nat) {
    holds(w.readings(k)) && holds(w.readings(k + 1))
  }

  /** Polled from `from` on and before `to`, the condition never held twice in a row. */
  ghost predicate NoPair(w: World, holds: Option<BrowserPose> -> bool, from: nat, to: nat) {
    forall k: nat :: from <= k && k + 1 < to ==> !Twice(w, holds, k)
  }

  /** The time that polls take, each followed by its wait. */
  function Elapsed(w: World, from: nat, to: nat): real
    decreases to
  {
    if to <= from then 0.0 else Elapsed(w, from, to - 1) + POLL_MS + w.lateness(to - 1)
  }

  /** Polling since then and nothing else leads to `now`. */
  ghost predicate Polled(w: World, since: Moment, now: Moment) {
    since.tick <= now.tick && now.at == since.at + Elapsed(w, since.tick, now.tick)
  }

  /** Polled since then, the condition first held twice in a row now, within the window. */
  ghost predicate FirstPair(w: World, holds: Option<BrowserPose> -> bool, ms: real, since: Moment, now: Moment) {
    && Polled(w, since, now) && now.at < since.at + ms
    && since.tick < now.tick && Twice(w, holds, now.tick - 1) && NoPair(w, holds, since.tick, now.tick)
  }

  /** Polled since then, it never did, and now the window is over. */
  ghost predicate GaveUp(w: World, holds: Option<BrowserPose> -> bool, ms: real, since: Moment, now: Moment) {
    && Polled(w, since, now) && now.at >= since.at + ms && NoPair(w, holds, since.tick, now.tick)
    && (now.tick > since.tick ==> since.at + Elapsed(w, since.tick, now.tick - 1) < since.at + ms)
  }

  /** Polling goes on: the condition has not held twice in a row, though perhaps in the last poll. */
  ghost predicate StillPolling(w: World, holds: Option<BrowserPose> -> bool, ms: real, since: Moment, now: Moment,
                               streak: int) {
    && Polled(w, since, now) && NoPair(w, holds, since.tick, now.tick)
    && (now.tick > since.tick ==> since.at + Elapsed(w, since.tick, now.tick - 1) < since.at + ms)
    && streak == if now.tick > since.tick && holds(w.readings(now.tick - 1)) then 1 else 0
  }

  lemma OneMorePoll(w: World, holds: Option<BrowserPose> -> bool, ms: real, since: Moment, now: Moment, streak: int)
    requires StillPolling(w, holds, ms, since, now, streak) && now.at < since.at + ms
    ensures var next := if holds(w.readings(now.tick)) then streak + 1 else 0;
            if next >= STEADY then FirstPair(w, holds, ms, since, now)
            else StillPolling(w, holds, ms, since, Moment(now.at + POLL_MS + w.lateness(now.tick), now.tick + 1), next)
  {
  }

  lemma {:induction false} ElapsedGrows(w: World, from: nat, a: nat, b: nat)
    requires from <= a <= b
    ensures Elapsed(w, from, b) >= Elapsed(w, from, a) + POLL_MS * (b - a) as real
  {
    if a < b {
      ElapsedGrows(w, from, a, b - 1);
    }
  }

  /** The readings and the clock decide: a wait that finds a pair does not give up, whenever,
    * and finds no other. */
  lemma OneWayToWait(w: World, holds: Option<BrowserPose> -> bool, ms: real, since: Moment, now: Moment, other: Moment)
    requires FirstPair(w, holds, ms, since, now)
    ensures !GaveUp(w, holds, ms, since, other)
    ensures FirstPair(w, holds, ms, since, other) ==> other == now
  {
    if Polled(w, since, other) {
      if other.tick <= now.tick {
        ElapsedGrows(w, since.tick, other.tick, now.tick);
      }
      assert other.tick > now.tick ==> !NoPair(w, holds, since.tick, other.tick) by {
        assert Twice(w, holds, now.tick - 1);
      }
      assert other.tick < now.tick && since.tick < other.tick && Twice(w, holds, other.tick - 1)
             ==> !NoPair(w, holds, since.tick, now.tick);
    }
  }

  /** At most one poll for each started 40 ms of the window. */
  lemma FewPolls(w: World, holds: Option<BrowserPose> -> bool, ms: real, since: Moment, now: Moment)
    ensures FirstPair(w, holds, ms, since, now) ==> POLL_MS * (now.tick - since.tick) as real < ms
    ensures GaveUp(w, holds, ms, since, now) && ms > 0.0 ==>
      since.tick < now.tick && POLL_MS * (now.tick - since.tick - 1) as real < ms
  {
    if since.tick < now.tick {
      ElapsedGrows(w, since.tick, since.tick, now.tick);
      ElapsedGrows(w, since.tick, since.tick, now.tick - 1);
    }
  }
}
