/** How long a failing endpoint stays out of rotation. Times are in seconds. */
module Blacklists {
  import opened Prelude
  import opened Sessions

  const BASE_TTL: nat := 3
  const MAX_TTL: nat := 3600
  const LOCAL_OFFLINE_TTL: nat := 15

  function Shifted(n: nat, bits: nat): nat {
    if bits == 0 then n else 2 * Shifted(n, bits - 1)
  }

  function BlacklistTtl(failCount: int): nat {
    if failCount <= 0 then 0
    else if failCount <= 5 then Shifted(BASE_TTL, failCount - 1)
    else if failCount == 6 then 300
    else if failCount == 7 then 1800
    else MAX_TTL
  }

  /** The part of an endpoint that says whether it is in rotation. */
  datatype Health = Health(blacklistedTill: Stamp, failCount: nat, localOffline: bool)

  const HEALTHY := Health(Never, 0, false)

  /** `blacklistedTill.After(now)`; an unset stamp lies in the past. */
  predicate Blacklisted(h: Health, now: int) {
    h.blacklistedTill != Never && h.blacklistedTill.time > now
  }

  /** What an attempt says of its endpoint; `floor` lifts the failure count of failures that
      do not heal quickly. */
  datatype Mark = Success | Failure(floor: nat) | LocalFailure

  function Marked(h: Health, m: Mark, now: int): Health {
    match m
    case Success => HEALTHY
    case Failure(floor) =>
      var fails := Max(h.failCount, floor) + 1;
      Health(At(now + BlacklistTtl(fails)), fails, false)
    case LocalFailure => Health(At(now + LOCAL_OFFLINE_TTL), 0, true)
  }

  /** The network is back: what only its absence had marked is in rotation again. */
  function Recovered(h: Health): Health {
    if h.localOffline then HEALTHY else h
  }

  // ---- What it comes to ---------------------------------------------------------------

  /** More failures never mean a shorter time out, and it is always 3 seconds to an hour. */
  lemma TtlGrows(a: int, b: int)
    requires a <= b
    ensures BlacklistTtl(a) <= BlacklistTtl(b)
    ensures b > 0 ==> 3 <= BlacklistTtl(b) <= 3600
  {
    Ladder();
    assert a <= 0 || a == 1 || a == 2 || a == 3 || a == 4 || a == 5 || a >= 6;
    assert b <= 0 || b == 1 || b == 2 || b == 3 || b == 4 || b == 5 || b >= 6;
  }

  lemma Ladder()
    ensures BlacklistTtl(1) == 3 && BlacklistTtl(2) == 6 && BlacklistTtl(3) == 12 && BlacklistTtl(4) == 24 && BlacklistTtl(5) == 48
  {
    assert Shifted(3, 1) == 6 && Shifted(3, 2) == 12;
    assert Shifted(3, 3) == 24;
    assert Shifted(3, 4) == 48;
  }

  /** The steps of the ladder, in seconds. */
  lemma TtlTable(n: int)
    requires n > 0
    ensures BlacklistTtl(n) == if n == 1 then 3 else if n == 2 then 6 else if n == 3 then 12 else if n == 4 then 24
                               else if n == 5 then 48 else if n == 6 then 300 else if n == 7 then 1800 else 3600
  {
    Ladder();
  }

  function MarkAll(h: Health, marks: seq<(Mark, int)>): Health
    decreases |marks|
  {
    if |marks| == 0 then h
    else var n := |marks| - 1; Marked(MarkAll(h, marks[..n]), marks[n].0, marks[n].1)
  }

  /** One success wipes out everything before it. */
  lemma {:induction false} OnlySinceSuccess(h: Health, before: seq<(Mark, int)>, t: int, since: seq<(Mark, int)>)
    ensures MarkAll(h, before + [(Success, t)] + since) == MarkAll(HEALTHY, since)
    decreases |since|
  {
    var all, n := before + [(Success, t)] + since, |before| + |since|;
    if |since| == 0 {
      assert all[n] == (Success, t);
    } else {
      assert all[..n] == before + [(Success, t)] + since[..|since| - 1];
      assert all[n] == since[|since| - 1];
      OnlySinceSuccess(h, before, t, since[..|since| - 1]);
    }
  }

  ghost predicate Failures(marks: seq<(Mark, int)>) {
    forall i :: 0 <= i < |marks| ==> marks[i].0.Failure?
  }

  /** Where a run of failures can have got the count: from where it began, or from a floor. */
  function Reached(h: Health, marks: seq<(Mark, int)>, i: int): int
    requires i < |marks| && Failures(marks)
  {
    |marks| + if i < 0 then h.failCount else marks[i].0.floor - i
  }

  /** After a run of failures the count is the most any of them accounts for. */
  lemma {:induction false} FailuresAddUp(h: Health, marks: seq<(Mark, int)>)
    requires Failures(marks)
    ensures forall i :: -1 <= i < |marks| ==> Reached(h, marks, i) <= MarkAll(h, marks).failCount
    ensures exists i :: -1 <= i < |marks| && Reached(h, marks, i) == MarkAll(h, marks).failCount
    decreases |marks|
  {
    if |marks| == 0 {
      assert Reached(h, marks, -1) == h.failCount;
    } else {
      var n := |marks| - 1;
      var rest := marks[..n];
      FailuresAddUp(h, rest);
      forall i | -1 <= i < |marks| ensures Reached(h, marks, i) <= MarkAll(h, marks).failCount {
        assert i < n ==> Reached(h, marks, i) == Reached(h, rest, i) + 1;
      }
      var i :| -1 <= i < n && Reached(h, rest, i) == MarkAll(h, rest).failCount;
      assert Reached(h, marks, i) == Reached(h, rest, i) + 1;
      assert Reached(h, marks, n) == marks[n].0.floor + 1;
    }
  }

  /** An endpoint whose last success was followed by `n` ordinary failures is out of rotation
      exactly until the `n`-th step of the ladder has passed since the last of them. */
  lemma OutExactlyThatLong(h: Health, before: seq<(Mark, int)>, t: int, since: seq<(Mark, int)>, now: int)
    requires |since| > 0 && forall i :: 0 <= i < |since| ==> since[i].0 == Failure(0)
    ensures Blacklisted(MarkAll(h, before + [(Success, t)] + since), now)
            <==> now < since[|since| - 1].1 + BlacklistTtl(|since|)
  {
    OnlySinceSuccess(h, before, t, since);
    FailuresAddUp(HEALTHY, since);
    var i :| -1 <= i < |since| && Reached(HEALTHY, since, i) == MarkAll(HEALTHY, since).failCount;
    assert Reached(HEALTHY, since, -1) == |since|;
  }

  /** A quota or authorisation failure keeps an endpoint out for at least five minutes, a rate
      limit for at least 24 seconds, whatever came before. */
  lemma FloorsSkipTheRamp(h: Health, now: int)
    ensures Blacklisted(Marked(h, Failure(5), now), now + 299)
    ensures Blacklisted(Marked(h, Failure(3), now), now + 23)
  {
    Ladder();
    TtlGrows(6, Max(h.failCount, 5) + 1);
    TtlGrows(4, Max(h.failCount, 3) + 1);
  }

  /** The way back after a network outage: exactly the endpoints it alone kept out return. */
  lemma OutageLeavesNoTrace(h: Health, now: int)
    ensures Recovered(Marked(h, LocalFailure, now)) == HEALTHY
    ensures Recovered(Marked(h, Failure(0), now)) == Marked(h, Failure(0), now)
  {
  }
}
