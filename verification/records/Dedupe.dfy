/** Recording attendance with duplicate suppression. */
module Dedupe {
  import opened Prelude

  type Time = int
  type UserId = nat

  const VALID_METHODS: seq<string> := ["auto", "manual", "kiosk"]

  function Minutes(n: int): Time { n * 60_000_000 }

  datatype Record = Record(user: UserId, timestamp: Time, spoof: bool)

  /** The attendance table in order of creation. */
  type Table = seq<Record>

  /** `timestamp` is given for backfilled records; `window` is in minutes. */
  datatype Call = Call(user: UserId, now: Time, timestamp: Option<Time>, spoof: bool, window: int)

  predicate Counts(r: Record, user: UserId, start: Time) { r.user == user && !r.spoof && r.timestamp >= start }

  /** `find_recent_attendance`: the latest record of the user in the window. */
  function FindRecent(t: Table, user: UserId, start: Time): (found: Option<Record>)
    ensures found.None? <==> forall r | r in t :: !Counts(r, user, start)
    ensures found.Some? ==> found.value in t && Counts(found.value, user, start)
                            && forall r | r in t && Counts(r, user, start) :: r.timestamp <= found.value.timestamp
  {
    if t == [] then None
    else
      assert t == [t[0]] + t[1..];
      var rest := FindRecent(t[1..], user, start);
      if Counts(t[0], user, start) && (rest.None? || rest.value.timestamp <= t[0].timestamp) then Some(t[0]) else rest
  }

  function Recent(t: Table, c: Call): Option<Record> {
    if !c.spoof && c.window > 0 then FindRecent(t, c.user, c.now - Minutes(c.window)) else None
  }

  function NewRecord(c: Call): Record {
    Record(c.user, if c.timestamp.Some? then c.timestamp.value else c.now, c.spoof)
  }

  function Mark(t: Table, c: Call): Table {
    if Recent(t, c).Some? then t else t + [NewRecord(c)]
  }

  /** A call is recorded, with the given timestamp or the time of the call, exactly when it is a spoof, no window
      is set, or every earlier non-spoof record of the user lies before the window. */
  lemma RecordedExactly(t: Table, c: Call)
    ensures if c.spoof || c.window <= 0
               || forall r | r in t && r.user == c.user && !r.spoof :: r.timestamp < c.now - c.window * 60_000_000
            then Mark(t, c) == t + [Record(c.user, match c.timestamp case Some(x) => x case None => c.now, c.spoof)]
            else Mark(t, c) == t
  {
    if !c.spoof && c.window > 0 {
      var start := c.now - Minutes(c.window);
      assert FindRecent(t, c.user, start).None? <==> forall r | r in t :: !Counts(r, c.user, start);
    }
  }

  function Run(t: Table, calls: seq<Call>): Table
    decreases |calls|
  {
    if calls == [] then t else Run(Mark(t, calls[0]), calls[1..])
  }

  datatype Outcome = Created(record: Record) | Suppressed(recent: Record) | InvalidMethod

  class AttendanceService {
    var table: Table
    const windowMinutes: int          // the configured default

    constructor (windowMinutes: int)
      ensures table == [] && this.windowMinutes == windowMinutes
    {
      this.table, this.windowMinutes := [], windowMinutes;
    }

    method MarkAttendance(
        user: UserId, how: string, now: Time, timestamp: Option<Time>, spoof: bool, window: Option<int>)
      returns (r: Outcome)
      modifies this
      ensures var c := Call(user, now, timestamp, spoof, if window.Some? then window.value else windowMinutes);
        && (how !in VALID_METHODS ==> r == InvalidMethod && table == old(table))
        && (how in VALID_METHODS ==>
              && table == Mark(old(table), c)
              && r == match Recent(old(table), c) case Some(x) => Suppressed(x) case None => Created(NewRecord(c)))
    {
      if how !in VALID_METHODS { return InvalidMethod; }
      var ts := if timestamp.Some? then timestamp.value else now;
      var minutes := if window.Some? then window.value else windowMinutes;
      if !spoof && minutes > 0 {
        var recent := FindRecent(table, user, now - Minutes(minutes));
        if recent.Some? { return Suppressed(recent.value); }
      }
      var record := Record(user, ts, spoof);
      table := table + [record];
      r := Created(record);
    }
  }

  /* ---------- spacing ---------- */

  /** A record made with the default timestamp lies more than the window after every earlier
      non-spoof record of its user, whatever timestamps those were given. */
  lemma DefaultIsSpaced(t: Table, c: Call, r: Record)
    requires !c.spoof && c.timestamp.None? && c.window > 0
    requires Mark(t, c) != t && r in t && r.user == c.user && !r.spoof
    ensures NewRecord(c).timestamp > r.timestamp + Minutes(c.window)
  {
    assert !Counts(r, c.user, c.now - Minutes(c.window));
  }

  /** The timestamps of a user's non-spoof records, in order of creation. */
  function Times(t: Table, user: UserId): seq<Time> {
    if t == [] then []
    else Times(t[..|t| - 1], user) + if t[|t| - 1].user == user && !t[|t| - 1].spoof then [t[|t| - 1].timestamp] else []
  }

  predicate Spaced(times: seq<Time>, gap: Time) {
    forall i, k | 0 <= i < k < |times| :: times[k] > times[i] + gap
  }

  lemma {:induction false} TimesMeaning(t: Table, user: UserId, x: Time)
    requires x in Times(t, user)
    ensures Record(user, x, false) in t
  {
    var n := |t| - 1;
    if x in Times(t[..n], user) {
      TimesMeaning(t[..n], user, x);
    } else {
      assert t[n] == Record(user, x, false);
    }
  }

  predicate ByDefault(calls: seq<Call>, window: int) {
    forall c | c in calls :: c.timestamp.None? && c.window == window
  }

  /** Over every run with default timestamps and one positive window, records are spaced. */
  lemma {:induction false} RunIsSpaced(t: Table, calls: seq<Call>, window: int, user: UserId)
    requires window > 0 && ByDefault(calls, window) && Spaced(Times(t, user), Minutes(window))
    ensures Spaced(Times(Run(t, calls), user), Minutes(window))
    decreases |calls|
  {
    if calls != [] {
      var c := calls[0];
      assert c in calls;
      var next := Mark(t, c);
      if next != t {
        assert next[..|t|] == t;
        if c.user == user && !c.spoof {
          forall x | x in Times(t, user)
            ensures c.now > x + Minutes(window)
          {
            TimesMeaning(t, user, x);
            DefaultIsSpaced(t, c, Record(user, x, false));
          }
          assert forall i | 0 <= i < |Times(t, user)| :: Times(t, user)[i] in Times(t, user);
        }
      }
      RunIsSpaced(next, calls[1..], window, user);
    }
  }

  function Within(times: seq<Time>, a: Time, b: Time): seq<Time> {
    if times == [] then []
    else Within(times[..|times| - 1], a, b) + if a <= times[|times| - 1] <= b then [times[|times| - 1]] else []
  }

  lemma {:induction false} WithinKeepsSpacing(times: seq<Time>, a: Time, b: Time, gap: Time)
    requires Spaced(times, gap)
    ensures Spaced(Within(times, a, b), gap)
    ensures forall x | x in Within(times, a, b) :: x in times && a <= x <= b
  {
    if times != [] {
      var n := |times| - 1;
      WithinKeepsSpacing(times[..n], a, b, gap);
      var w := Within(times[..n], a, b);
      assert forall i | 0 <= i < |w| :: w[i] in w;
    }
  }

  lemma {:induction false} SpacedSpan(times: seq<Time>, gap: Time)
    requires Spaced(times, gap) && times != [] && gap > 0
    ensures times[|times| - 1] - times[0] >= (|times| - 1) * gap
  {
    var n := |times| - 1;
    if n > 0 {
      SpacedSpan(times[..n], gap);
      assert times[n] > times[n - 1] + gap;
      assert (n - 1) * gap + gap == n * gap;
    }
  }

  lemma QuotientBound(n: nat, gap: int, length: nat)
    requires gap > 0 && n * gap <= length
    ensures n <= length / gap
  {
    var q := length / gap;
    Multiple(n - q, gap);
    assert (n - q) * gap == n * gap - q * gap;
  }

  lemma Multiple(k: int, gap: int)
    requires gap > 0
    ensures k >= 1 ==> k * gap >= gap
  {
    if k >= 1 { assert (k - 1) * gap >= 0; }
  }

  lemma SpacedCount(times: seq<Time>, gap: Time, a: Time, length: nat)
    requires Spaced(times, gap) && gap > 0
    ensures |Within(times, a, a + length)| <= 1 + length / gap
  {
    var w := Within(times, a, a + length);
    WithinKeepsSpacing(times, a, a + length, gap);
    if w != [] {
      SpacedSpan(w, gap);
      assert w[0] in w && w[|w| - 1] in w;
      QuotientBound(|w| - 1, gap, length);
    }
  }

  /** Any interval of the given length holds at most one more record than it holds windows. */
  lemma AtMostOnePerWindow(calls: seq<Call>, window: int, user: UserId, a: Time, length: nat)
    requires window > 0 && ByDefault(calls, window)
    ensures |Within(Times(Run([], calls), user), a, a + length)| <= 1 + length / Minutes(window)
  {
    RunIsSpaced([], calls, window, user);
    SpacedCount(Times(Run([], calls), user), Minutes(window), a, length);
  }

  /* ---------- spoofs ---------- */

  function Real(t: Table): Table {
    if t == [] then [] else Real(t[..|t| - 1]) + if t[|t| - 1].spoof then [] else [t[|t| - 1]]
  }

  function RealCalls(calls: seq<Call>): seq<Call> {
    if calls == [] then [] else (if calls[0].spoof then [] else [calls[0]]) + RealCalls(calls[1..])
  }

  lemma {:induction false} RealMembers(t: Table)
    ensures forall r :: r in Real(t) <==> r in t && !r.spoof
  {
    if t != [] {
      var n := |t| - 1;
      assert t == t[..n] + [t[n]];
      RealMembers(t[..n]);
    }
  }

  /** Spoof rows neither suppress nor are suppressed: a run's real rows are those of the run
      without its spoof calls, and every spoof call is recorded. */
  lemma {:induction false} SpoofsAreInvisible(t: Table, s: Table, calls: seq<Call>)
    requires Real(t) == s
    ensures Real(Run(t, calls)) == Run(s, RealCalls(calls))
    decreases |calls|
  {
    if calls != [] {
      var c := calls[0];
      var next := Mark(t, c);
      RealMembers(t);
      assert (t + [NewRecord(c)])[..|t|] == t;
      if c.spoof {
        assert next == t + [NewRecord(c)];
        assert Real(next) == s;
        assert RealCalls(calls) == RealCalls(calls[1..]);
        SpoofsAreInvisible(next, s, calls[1..]);
      } else {
        assert Recent(t, c).None? <==> Recent(s, c).None?;
        SpoofsAreInvisible(next, Mark(s, c), calls[1..]);
        assert RealCalls(calls) == [c] + RealCalls(calls[1..]);
      }
    }
  }
}
