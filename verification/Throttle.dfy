/** The login throttle: interceptor, failure records, sweeper and captcha flags
    (src/main/java/com/gionee/cas/throttle and src/main/java/org/jasig/cas/web/support). */
module Throttles {
  import opened Basics

  // ----- store keys -----

  const PREFIX: string := "LOGIN_RECORD."

  /** String.replace( target, "" ): occurrences from left to right, without overlap. */
  function Erase(s: string, target: string): string
    requires target != ""
    decreases |s|
  {
    if |s| < |target| then s
    else if s[..|target|] == target then Erase(s[|target|..], target)
    else [s[0]] + Erase(s[1..], target)
  }

  function ConstructKey(id: string): string { PREFIX + id }

  function RealKey(key: string): string { Erase(key, PREFIX) }

  /** A session id leads back to itself unless it contains the prefix. */
  lemma RealKeyIff(id: string)
    ensures RealKey(ConstructKey(id)) == Erase(id, PREFIX)
    ensures RealKey(ConstructKey(id)) == id <==> !Occurs(id, PREFIX)
  {
    assert (PREFIX + id)[..|PREFIX|] == PREFIX && (PREFIX + id)[|PREFIX|..] == id;
    EraseShortens(id, PREFIX);
  }

  lemma {:induction false} EraseShortens(s: string, target: string)
    requires target != ""
    ensures |Erase(s, target)| <= |s|
    ensures Occurs(s, target) ==> |Erase(s, target)| < |s|
    ensures !Occurs(s, target) ==> Erase(s, target) == s
    decreases |s|
  {
    if |s| < |target| {
    } else if s[..|target|] == target {
      EraseShortens(s[|target|..], target);
      assert OccursAt(s, target, 0);
    } else {
      EraseShortens(s[1..], target);
      assert !OccursAt(s, target, 0);
      forall i: nat ensures OccursAt(s, target, i + 1) <==> OccursAt(s[1..], target, i) {
        if i + 1 + |target| <= |s| {
          assert s[1..][i..i + |target|] == s[i + 1..i + 1 + |target|];
        }
      }
      if Occurs(s, target) {
        var i: nat :| OccursAt(s, target, i);
        assert OccursAt(s[1..], target, i - 1);
      }
      if Occurs(s[1..], target) {
        var i: nat :| OccursAt(s[1..], target, i);
        assert OccursAt(s, target, i + 1);
      }
      assert s == [s[0]] + s[1..];
    }
  }

  // ----- rates -----

  /** The parts of a LoginRecord that the throttle uses; the store keeps serialised copies. */
  datatype LoginRecord = LoginRecord(date: int, failures: int)

  type Records = map<string, LoginRecord>

  datatype Config = Config(threshold: nat, rangeSeconds: nat, showCaptcha: int)

  /** 1000.0 / ( now - last ) > threshold / (double) range, with division by zero as in Java:
      equal dates give an infinite rate, a zero range an infinite or undefined limit. */
  predicate Exceeds(c: Config, now: int, last: int) {
    if c.rangeSeconds == 0 then false
    else if now == last then true
    else 1000.0 / (now - last) as real > c.threshold as real / c.rangeSeconds as real
  }

  /** What the throttle keeps between two failures, in ms: d * T >= 1000 * R; with a zero threshold
      and a positive range, more than the range, as then only the sweeper lets a session go on. */
  predicate Spaced(c: Config, d: int) {
    if c.threshold == 0 && c.rangeSeconds > 0 then d > 1000 * c.rangeSeconds
    else d * c.threshold >= 1000 * c.rangeSeconds
  }

  lemma CrossMultiply(x: int, y: int, t: int, r: int)
    requires y > 0 && r > 0
    ensures x as real / y as real > t as real / r as real <==> x * r > t * y
  {
    var p, q := x as real / y as real, t as real / r as real;
    assert p * y as real == x as real;
    assert q * r as real == t as real;
    var k := y as real * r as real;
    assert k > 0.0;
    assert p * k == x as real * r as real;
    assert q * k == t as real * y as real;
    assert (x * r) as real == x as real * r as real;
    assert (t * y) as real == t as real * y as real;
    assert p > q <==> p * k > q * k by { Scale(p, q, k); }
  }

  lemma Scale(p: real, q: real, k: real)
    requires k > 0.0
    ensures p > q <==> p * k > q * k
  {
    assert (p - q) * k == p * k - q * k;
    if p > q { assert (p - q) * k > 0.0; }
    if p <= q { assert (p - q) * k <= 0.0; }
  }

  /** The test of the rates in integers: d ms after the last failure, d * T < 1000 * R is refused. */
  lemma ExceedsIff(c: Config, now: int, last: int)
    requires last <= now
    ensures Exceeds(c, now, last) <==> (now - last) * c.threshold < 1000 * c.rangeSeconds
  {
    if last < now && c.rangeSeconds > 0 { CrossMultiply(1000, now - last, c.threshold, c.rangeSeconds); }
  }

  // ----- one sweep -----

  /** The record is older than the failure range. */
  predicate Stale(c: Config, r: LoginRecord, now: int) { now - r.date > c.rangeSeconds * 1000 }

  /** Records that the sweep deletes. */
  function Expired(c: Config, records: Records, now: int): set<string> {
    set id | id in records && Stale(c, records[id], now) && records[id].failures - 1 <= 0
  }

  function SweptRecord(c: Config, r: LoginRecord, now: int): LoginRecord {
    if Stale(c, r, now) then r.(failures := r.failures - 1) else r
  }

  function Swept(c: Config, records: Records, now: int): Records {
    map id | id in records && id !in Expired(c, records, now) :: SweptRecord(c, records[id], now)
  }

  function SweptFlags(c: Config, records: Records, flags: set<string>, now: int): set<string> {
    flags - set id | id in Expired(c, records, now) :: Erase(id, PREFIX)
  }

  /** Records and flags after sweeps at the given times. */
  function AfterSweeps(c: Config, records: Records, flags: set<string>, times: seq<int>): (Records, set<string>) {
    if times == [] then (records, flags)
    else
      var (rs, fs) := AfterSweeps(c, records, flags, times[..|times| - 1]);
      var now := times[|times| - 1];
      (Swept(c, rs, now), SweptFlags(c, rs, fs, now))
  }

  /** Sweeps that find the record stale lower its count by one each and keep its date: a record
      of count n is there after fewer than n of them and gone after n, whatever else is stored. */
  lemma {:induction false} DrainsInExactly(c: Config, records: Records, flags: set<string>, id: string, times: seq<int>)
    requires id in records && records[id].failures >= 1
    requires forall k :: 0 <= k < |times| ==> times[k] - records[id].date > 1000 * c.rangeSeconds
    ensures var rs := AfterSweeps(c, records, flags, times).0;
      if |times| < records[id].failures
      then id in rs && rs[id] == records[id].(failures := records[id].failures - |times|)
      else id !in rs
  {
    if times != [] {
      DrainsInExactly(c, records, flags, id, times[..|times| - 1]);
    }
  }

  /** Its captcha flag goes with it and not before, provided that no id contains the prefix. */
  lemma {:induction false} FlagDrainsWithRecord(c: Config, records: Records, flags: set<string>, id: string, times: seq<int>)
    requires id in records && records[id].failures >= 1 && id in flags
    requires forall k :: 0 <= k < |times| ==> times[k] - records[id].date > 1000 * c.rangeSeconds
    requires forall other :: other in records ==> !Occurs(other, PREFIX)
    ensures var (rs, fs) := AfterSweeps(c, records, flags, times);
      && (id in fs <==> |times| < records[id].failures)
      && (id in fs <==> id in rs)
      && (forall other :: other in rs ==> other in records)
  {
    if times != [] {
      var before, now := times[..|times| - 1], times[|times| - 1];
      FlagDrainsWithRecord(c, records, flags, id, before);
      DrainsInExactly(c, records, flags, id, before);
      DrainsInExactly(c, records, flags, id, times);
      var (rs, fs) := AfterSweeps(c, records, flags, before);
      forall other | other in Expired(c, rs, now) ensures Erase(other, PREFIX) == other {
        EraseShortens(other, PREFIX);
      }
    }
  }

  /** A sweep that finds a record fresh leaves it alone. */
  lemma FreshUntouched(c: Config, records: Records, id: string, now: int)
    requires id in records && now - records[id].date <= 1000 * c.rangeSeconds
    ensures id in Swept(c, records, now) && Swept(c, records, now)[id] == records[id]
  {
    assert id !in Expired(c, records, now);
  }

  // ----- spacing over a run -----

  /** Each failure time and the one before it are spaced. */
  ghost predicate SpacedOut(c: Config, times: seq<int>) {
    forall i :: 0 <= i < |times| - 1 ==> Spaced(c, times[i + 1] - times[i])
  }

  /** Failures per range; a zero threshold admits as many as a threshold of one. */
  function Pace(c: Config): nat { if c.threshold == 0 then 1 else c.threshold }

  /** j - i failures after the i-th take at least j - i spaces. */
  lemma {:induction false} SpacesAddUp(c: Config, times: seq<int>, i: nat, j: nat)
    requires SpacedOut(c, times) && i <= j < |times| && c.rangeSeconds >= 1
    ensures (times[j] - times[i]) * Pace(c) >= (j - i) * 1000 * c.rangeSeconds
    decreases j - i
  {
    if i < j {
      SpacesAddUp(c, times, i, j - 1);
      assert Spaced(c, times[j - 1 + 1] - times[j - 1]);
      assert (times[j] - times[i]) * Pace(c)
          == (times[j] - times[j - 1]) * Pace(c) + (times[j - 1] - times[i]) * Pace(c);
      assert (j - i) * 1000 * c.rangeSeconds == (j - 1 - i) * 1000 * c.rangeSeconds + 1000 * c.rangeSeconds;
    }
  }

  /** A window of length ms holds at most length * T / (1000 * R) + 1 failures. */
  lemma WindowBound(c: Config, times: seq<int>, i: nat, j: nat, length: int)
    requires SpacedOut(c, times) && i <= j < |times| && c.rangeSeconds >= 1
    requires times[j] - times[i] <= length
    ensures (j - i) * 1000 * c.rangeSeconds <= length * Pace(c)
    ensures j - i + 1 <= length * Pace(c) / (1000 * c.rangeSeconds) + 1
  {
    SpacesAddUp(c, times, i, j);
    assert (times[j] - times[i]) * Pace(c) <= length * Pace(c);
    DivideBound(j - i, length * Pace(c), 1000 * c.rangeSeconds);
  }

  lemma DivideBound(n: int, x: int, d: int)
    requires d > 0 && n * d <= x
    ensures n <= x / d
  {
    var q := x / d;
    assert x - q * d < d;
    assert (n - q) * d == n * d - q * d;
    Times(n - q, d);
  }

  lemma Times(k: int, d: int)
    requires d > 0
    ensures k >= 1 ==> k * d >= d
  {
  }

  // ----- the interceptor with its store -----

  const CREATED := 201
  const OK := 200
  const MOVED_TEMPORARILY := 302

  class Throttle {
    const config: Config
    /** Login records by session id, that is under ConstructKey(id). */
    var records: Records
    /** The keys with a captcha flag. */
    var flags: set<string>
    /** The latest time seen; the failures recorded for each id, in order; the POST requests let
        through and not yet finished, with the time they were let through. */
    ghost var clock: int
    ghost var failures: map<string, seq<int>>
    ghost var admitted: map<string, int>

    ghost predicate Valid()
      reads this
    {
      && History(config, records, clock, failures)
      && Owned(flags, records)
      && Waiting(config, clock, failures, admitted)
    }

    /** What the events below are about. */
    ghost function View(): Store
      reads this
    {
      Store(records, flags, admitted.Keys)
    }

    constructor (config: Config)
      ensures Valid() && this.config == config && records == map[] && flags == {} && failures == map[] && admitted == map[]
    {
      this.config := config;
      records, flags, clock := map[], {}, 0;
      failures, admitted := map[], map[];
    }

    /** exceedsThreshold */
    method ExceedsThreshold(id: string, now: int) returns (r: bool)
      ensures r <==> id in records && Exceeds(config, now, records[id].date)
    {
      if id in records {
        r := Exceeds(config, now, records[id].date);
      } else {
        r := false;
      }
    }

    /** preHandle: requests of one session come one at a time. */
    method PreHandle(id: string, post: bool, now: int) returns (proceed: bool)
      requires Valid() && now >= clock && id !in admitted
      modifies this`clock, this`admitted
      ensures Valid() && clock == now
      ensures proceed <==> !post || id !in records || !Exceeds(config, now, records[id].date)
      ensures admitted == if post && proceed then old(admitted)[id := now] else old(admitted)
      ensures View() == if post then After(config, old(View()), Judged(id, now)) else old(View())
    {
      clock := now;
      if !post { return true; }
      var exceeds := ExceedsThreshold(id, now);
      if exceeds { return false; }
      AdmittedSpaced(config, records, now, failures, id);
      admitted := admitted[id := now];
      proceed := true;
    }

    /** postHandle, on a POST request that preHandle let through. */
    method PostHandle(id: string, now: int, status: int)
      requires Valid() && now >= clock && id in admitted
      modifies this
      ensures Valid() && clock == now && admitted == old(admitted) - {id}
      ensures status in {CREATED, OK, MOVED_TEMPORARILY} ==>
        records == old(records) && flags == old(flags) && failures == old(failures)
      ensures status !in {CREATED, OK, MOVED_TEMPORARILY} ==>
        && failures == Noted(old(failures), id, now)
        && records == Recorded(old(records), id, now)
        && flags == Flagged(config, old(records), old(flags), id)
      ensures View() == After(config, old(View()),
        if status in {CREATED, OK, MOVED_TEMPORARILY} then Ended(id, now) else Failed(id, now))
    {
      clock := now;
      ghost var since := admitted[id];
      admitted := admitted - {id};
      var recordEvent := status != CREATED && status != OK && status != MOVED_TEMPORARILY;
      if recordEvent {
        RecordSubmissionFailure(id, now, since);
      }
    }

    /** A request that was let through and whose handler threw: postHandle is not called. */
    method Abandon(id: string)
      requires Valid() && id in admitted
      modifies this`admitted
      ensures Valid() && admitted == old(admitted) - {id}
      ensures View() == After(config, old(View()), Ended(id, clock))
    {
      admitted := admitted - {id};
    }

    /** recordSubmissionFailure */
    method RecordSubmissionFailure(id: string, now: int, ghost since: int)
      requires Valid() && now == clock && since <= now && id !in admitted
      requires SpacedFrom(config, failures, id, since)
      modifies this`records, this`flags, this`failures
      ensures Valid()
      ensures failures == Noted(old(failures), id, now)
      ensures records == Recorded(old(records), id, now)
      ensures flags == Flagged(config, old(records), old(flags), id)
    {
      HistoryGrows(config, records, now, failures, id, since);
      OwnedGrows(flags, records, id, Recorded(records, id, now));
      WaitingGrows(config, now, failures, admitted, id, Noted(failures, id, now));
      failures := Noted(failures, id, now);
      StoreFailure(id, now);
    }

    method StoreFailure(id: string, now: int)
      modifies this`records, this`flags
      ensures records == Recorded(old(records), id, now)
      ensures flags == Flagged(config, old(records), old(flags), id)
    {
      if id in records {
        var latest := LoginRecord(now, records[id].failures + 1);
        records := records[id := latest];
        if latest.failures >= config.showCaptcha {
          RealKeyIff(id);
          flags := flags + {RealKey(ConstructKey(id))};
        }
      } else {
        records := records[id := LoginRecord(now, 1)];
      }
    }

    /** CaptchaEvaluator.determineShowCaptcha */
    method DetermineShowCaptcha(id: string) returns (show: bool)
      requires Valid()
      ensures show <==> id in flags && exists i :: 0 <= i < |id| && !IsWhitespace(id[i])
      ensures show && (forall other :: other in records ==> !Occurs(other, PREFIX)) ==> id in records && records[id].failures >= 1
    {
      if HasText(id) {
        show := id in flags;
        if show && forall other :: other in records ==> !Occurs(other, PREFIX) {
          FlagMeansRecord(flags, records, id);
        }
      } else {
        show := false;
      }
    }

    /** CaptchaEvaluator.clearThrottleInfoAfterLoginSuccess */
    method ClearAfterLoginSuccess(id: string)
      requires Valid()
      modifies this`flags
      ensures Valid() && View() == After(config, old(View()), Login(id, clock))
    {
      flags := flags - {id};
    }

    /** decrementCounts */
    method DecrementCounts(now: int)
      requires Valid() && now >= clock
      modifies this
      ensures Valid() && clock == now && failures == old(failures) && admitted == old(admitted)
      ensures records == Swept(config, old(records), now)
      ensures flags == SweptFlags(config, old(records), old(flags), now)
      ensures View() == After(config, old(View()), Sweep(now))
    {
      HistorySwept(config, records, clock, failures, now);
      SweptOwned(config, records, flags, now);
      clock := now;
      SweepAll(now);
    }

    method SweepAll(now: int)
      modifies this`records, this`flags
      ensures records == Swept(config, old(records), now)
      ensures flags == SweptFlags(config, old(records), old(flags), now)
    {
      ghost var was := records;
      var keys := records.Keys;
      ghost var done: set<string> := {};
      while keys != {}
        invariant keys !! done && keys + done == was.Keys
        invariant records == map id | id in was && !(id in done && id in Expired(config, was, now)) ::
                    if id in done then SweptRecord(config, was[id], now) else was[id]
        invariant flags == old(flags) - set id | id in done && id in Expired(config, was, now) :: Erase(id, PREFIX)
        decreases keys
      {
        var key :| key in keys;
        SweepOne(key, now);
        keys := keys - {key};
        done := done + {key};
      }
    }

    method SweepOne(id: string, now: int)
      requires id in records
      modifies this`records, this`flags
      ensures records == if id in Expired(config, old(records), now) then old(records) - {id}
                         else old(records)[id := SweptRecord(config, old(records)[id], now)]
      ensures flags == old(flags) - if id in Expired(config, old(records), now) then {Erase(id, PREFIX)} else {}
    {
      var loginRecord := records[id];
      var sinceLastFailure := now - loginRecord.date;
      if sinceLastFailure > config.rangeSeconds * 1000 {
        var failureTimes := loginRecord.failures - 1;
        if failureTimes <= 0 {
          records := records - {id};
          RealKeyIff(id);
          flags := flags - {RealKey(ConstructKey(id))};
        } else {
          records := records[id := loginRecord.(failures := failureTimes)];
        }
      }
    }
  }

  /** StringUtils.hasText, with Character.isWhitespace of Java 8. */
  predicate HasText(s: string) { exists i :: 0 <= i < |s| && !IsWhitespace(s[i]) }

  predicate IsWhitespace(c: char) {
    || '\t' <= c <= '\r' || '\U{001C}' <= c <= ' ' || c == '\U{1680}' || c == '\U{180E}'
    || ('\U{2000}' <= c <= '\U{200A}' && c != '\U{2007}') || c == '\U{2028}' || c == '\U{2029}'
    || c == '\U{205F}' || c == '\U{3000}'
  }

  /** The record remembers the latest failure, or was swept when that was long ago. */
  ghost predicate Kept(c: Config, records: Records, clock: int, times: seq<int>, id: string) {
    && times != [] && Latest(times) <= clock
    && (if id in records then records[id].date == Latest(times) else clock - Latest(times) > c.rangeSeconds * 1000)
    && SpacedOut(c, times)
  }

  ghost predicate History(c: Config, records: Records, clock: int, failures: map<string, seq<int>>) {
    && (forall id :: id in records ==> id in failures && records[id].failures >= 1)
    && (forall id :: id in failures ==> Kept(c, records, clock, failures[id], id))
  }

  /** A request let through at time t comes spaced after the latest failure of its session. */
  ghost predicate SpacedFrom(c: Config, failures: map<string, seq<int>>, id: string, t: int) {
    id in failures ==> Spaced(c, t - Latest(failures[id]))
  }

  ghost predicate Waiting(c: Config, clock: int, failures: map<string, seq<int>>, admitted: map<string, int>) {
    forall id :: id in admitted ==> admitted[id] <= clock && SpacedFrom(c, failures, id, admitted[id])
  }

  function Noted(failures: map<string, seq<int>>, id: string, now: int): map<string, seq<int>> {
    failures[id := (if id in failures then failures[id] else []) + [now]]
  }

  /** The flags after a failure of id, with the records before it. */
  function Flagged(c: Config, records: Records, flags: set<string>, id: string): set<string> {
    if id in records && records[id].failures + 1 >= c.showCaptcha then flags + {Erase(id, PREFIX)} else flags
  }

  function Recorded(records: Records, id: string, now: int): Records {
    records[id := LoginRecord(now, if id in records then records[id].failures + 1 else 1)]
  }

  /** In a reachable state, however often the sweeper has run, a window of length ms holds at most
      length * T / (1000 * R) + 1 failures of a session; for T = 0 as many as for T = 1. */
  lemma FailuresInWindow(c: Config, records: Records, clock: int, failures: map<string, seq<int>>, id: string,
                         i: nat, j: nat, length: int)
    requires History(c, records, clock, failures) && c.rangeSeconds >= 1
    requires id in failures && i <= j < |failures[id]| && failures[id][j] - failures[id][i] <= length
    ensures j - i + 1 <= length * (if c.threshold == 0 then 1 else c.threshold) / (1000 * c.rangeSeconds) + 1
  {
    WindowBound(c, failures[id], i, j, length);
  }

  lemma AdmittedSpaced(c: Config, records: Records, now: int, failures: map<string, seq<int>>, id: string)
    requires History(c, records, now, failures)
    requires id in records ==> !Exceeds(c, now, records[id].date)
    ensures SpacedFrom(c, failures, id, now)
  {
    if id in failures {
      var d := now - Latest(failures[id]);
      if c.rangeSeconds == 0 {
        assert d * c.threshold >= 0;
      } else if id in records {
        ExceedsIff(c, now, records[id].date);
      } else {
        assert c.threshold >= 1 ==> d * c.threshold >= d;
      }
    }
  }

  lemma HistoryGrows(c: Config, records: Records, now: int, failures: map<string, seq<int>>, id: string, since: int)
    requires History(c, records, now, failures) && since <= now && SpacedFrom(c, failures, id, since)
    ensures History(c, Recorded(records, id, now), now, Noted(failures, id, now))
  {
    var times := if id in failures then failures[id] else [];
    FailureAppended(c, times, since, now);
    assert Kept(c, Recorded(records, id, now), now, times + [now], id);
  }

  lemma HistorySwept(c: Config, records: Records, clock: int, failures: map<string, seq<int>>, now: int)
    requires History(c, records, clock, failures) && clock <= now
    ensures History(c, Swept(c, records, now), now, failures)
  {
  }

  lemma WaitingGrows(c: Config, now: int, failures: map<string, seq<int>>, admitted: map<string, int>, id: string,
                     noted: map<string, seq<int>>)
    requires Waiting(c, now, failures, admitted) && id !in admitted
    requires noted == Noted(failures, id, now)
    ensures Waiting(c, now, noted, admitted)
  {
  }

  lemma OwnedGrows(flags: set<string>, records: Records, id: string, more: Records)
    requires Owned(flags, records) && id in more && records.Keys <= more.Keys
    ensures Owned(flags, more) && Owned(flags + {Erase(id, PREFIX)}, more)
  {
    forall f | f in flags ensures exists k :: k in more && Erase(k, PREFIX) == f {
      var k :| k in records && Erase(k, PREFIX) == f;
      assert k in more;
    }
  }

  /** A captcha flag goes back to a login record. */
  ghost predicate Owned(flags: set<string>, records: Records) {
    forall f :: f in flags ==> exists id :: id in records && Erase(id, PREFIX) == f
  }

  lemma SweptOwned(c: Config, records: Records, flags: set<string>, now: int)
    requires Owned(flags, records)
    ensures Owned(SweptFlags(c, records, flags, now), Swept(c, records, now))
  {
    forall f | f in SweptFlags(c, records, flags, now)
      ensures exists id :: id in Swept(c, records, now) && Erase(id, PREFIX) == f
    {
      var id :| id in records && Erase(id, PREFIX) == f;
      assert id !in Expired(c, records, now);
      assert id in Swept(c, records, now);
    }
  }

  /** With ids that do not contain the prefix, a flagged id has a record of its own. */
  lemma FlagMeansRecord(flags: set<string>, records: Records, id: string)
    requires Owned(flags, records) && id in flags
    requires forall other :: other in records ==> !Occurs(other, PREFIX)
    ensures id in records
  {
    var other :| other in records && Erase(other, PREFIX) == id;
    EraseShortens(other, PREFIX);
  }

  function Latest(times: seq<int>): int { if times == [] then 0 else times[|times| - 1] }

  lemma FailureAppended(c: Config, times: seq<int>, since: int, now: int)
    requires since <= now
    ensures SpacedOut(c, times) && (times != [] ==> Spaced(c, since - Latest(times)))
            ==> SpacedOut(c, times + [now])
  {
    if times != [] && Spaced(c, since - Latest(times)) {
      assert (now - Latest(times)) * c.threshold == (since - Latest(times)) * c.threshold + (now - since) * c.threshold;
      assert (now - since) * c.threshold >= 0;
    }
  }

  // ----- flags and records over runs -----

  /** A POST comes to the gate; one that was let through fails, or ends otherwise; a sweep; a login. */
  datatype Event =
    | Judged(id: string, now: int) | Failed(id: string, now: int) | Ended(id: string, now: int)
    | Sweep(now: int) | Login(id: string, now: int)

  /** admitted: the sessions with a POST let through and not yet ended, one at a time. */
  datatype Store = Store(records: Records, flags: set<string>, admitted: set<string>)

  function After(c: Config, s: Store, e: Event): Store {
    match e
    case Judged(id, now) =>
      if id in s.admitted || (id in s.records && Exceeds(c, now, s.records[id].date)) then s
      else s.(admitted := s.admitted + {id})
    case Failed(id, now) =>
      if id !in s.admitted then s
      else Store(Recorded(s.records, id, now), Flagged(c, s.records, s.flags, id), s.admitted - {id})
    case Ended(id, now) => s.(admitted := s.admitted - {id})
    case Sweep(now) => s.(records := Swept(c, s.records, now), flags := SweptFlags(c, s.records, s.flags, now))
    case Login(id, now) => s.(flags := s.flags - {id})
  }

  function AfterAll(c: Config, events: seq<Event>): Store {
    if events == [] then Store(map[], {}, {}) else After(c, AfterAll(c, events[..|events| - 1]), events[|events| - 1])
  }

  /** Time does not go back. */
  ghost predicate Timely(events: seq<Event>) {
    forall i :: 0 < i < |events| ==> events[i - 1].now <= events[i].now
  }

  ghost predicate Among(ids: set<string>, events: seq<Event>) {
    forall i :: 0 <= i < |events| && events[i].Judged? ==> events[i].id in ids
  }

  /** Every flagged id has a record. */
  ghost predicate Backed(s: Store) { forall f :: f in s.flags ==> f in s.records }

  /** Which configurations set no flag at all: the gate refuses while there is a record. */
  predicate NeverFlags(c: Config) { c.threshold == 0 && c.rangeSeconds > 0 }

  lemma {:induction false} RunOwned(c: Config, ids: set<string>, events: seq<Event>)
    requires Among(ids, events)
    ensures var s := AfterAll(c, events); Owned(s.flags, s.records) && s.records.Keys <= ids && s.admitted <= ids
  {
    if events != [] {
      var before, e := events[..|events| - 1], events[|events| - 1];
      RunOwned(c, ids, before);
      var s := AfterAll(c, before);
      match e {
        case Judged(id, now) =>
        case Failed(id, now) => OwnedGrows(s.flags, s.records, id, Recorded(s.records, id, now));
        case Ended(id, now) =>
        case Sweep(now) => SweptOwned(c, s.records, s.flags, now);
        case Login(id, now) =>
      }
    }
  }

  lemma {:induction false} NothingFlagged(c: Config, events: seq<Event>)
    requires NeverFlags(c) && Timely(events)
    ensures var s := AfterAll(c, events);
      && s.flags == {} && s.admitted !! s.records.Keys
      && forall id :: id in s.records ==> s.records[id].failures == 1 && events != [] && s.records[id].date <= events[|events| - 1].now
  {
    if events != [] {
      var before, e := events[..|events| - 1], events[|events| - 1];
      NothingFlagged(c, before);
      var s := AfterAll(c, before);
      if e.Judged? && e.id in s.records {
        ExceedsIff(c, e.now, s.records[e.id].date);
      }
    }
  }

  /** The earliest time of failure k of a session that the gate lets through. */
  function At(c: Config, k: nat): nat { if k == 0 then 0 else At(c, k - 1) + 1000 * c.rangeSeconds }

  /** k failures of one session, at these times. */
  function Failures(c: Config, id: string, k: nat): seq<Event> {
    if k == 0 then [] else Failures(c, id, k - 1) + [Judged(id, At(c, k - 1)), Failed(id, At(c, k - 1))]
  }

  lemma {:induction false} FailuresTimely(c: Config, id: string, k: nat)
    ensures |Failures(c, id, k)| == 2 * k && Timely(Failures(c, id, k)) && Among({id}, Failures(c, id, k))
    ensures k > 0 ==> Failures(c, id, k)[2 * k - 1].now == At(c, k - 1)
  {
    if k > 0 { FailuresTimely(c, id, k - 1); }
  }

  lemma GatePasses(c: Config, last: int)
    requires !NeverFlags(c)
    ensures !Exceeds(c, last + 1000 * c.rangeSeconds, last)
  {
    if c.rangeSeconds > 0 {
      ExceedsIff(c, last + 1000 * c.rangeSeconds, last);
      assert 1000 * c.rangeSeconds * c.threshold >= 1000 * c.rangeSeconds;
    }
  }

  /** How many failures on record it takes for a session to get its flag. */
  function ToCaptcha(c: Config): nat { if c.showCaptcha > 2 then c.showCaptcha else 2 }

  /** A session that fails k times in a row, and is never refused, has k failures on record, and a flag
      if and only if k is at least the threshold, and at least two. */
  lemma {:induction false} FailuresCount(c: Config, id: string, k: nat)
    requires !NeverFlags(c) && k > 0
    ensures var s := AfterAll(c, Failures(c, id, k));
      && s.records == map[id := LoginRecord(At(c, k - 1), k)] && s.admitted == {}
      && s.flags == if k >= ToCaptcha(c) then {Erase(id, PREFIX)} else {}
  {
    OneMoreFailure(c, id, k);
    if k > 1 {
      FailuresCount(c, id, k - 1);
      GatePasses(c, At(c, k - 2));
    } else {
      assert Failures(c, id, 0) == [];
    }
  }

  lemma OneMoreFailure(c: Config, id: string, k: nat)
    requires k > 0
    ensures AfterAll(c, Failures(c, id, k))
         == After(c, After(c, AfterAll(c, Failures(c, id, k - 1)), Judged(id, At(c, k - 1))), Failed(id, At(c, k - 1)))
  {
    var before, events := Failures(c, id, k - 1), Failures(c, id, k);
    assert events[..|events| - 1] == before + [Judged(id, At(c, k - 1))];
    assert (before + [Judged(id, At(c, k - 1))])[..|before|] == before;
  }

  /** Event i is a failure of a session that it leaves with enough failures on record, and f is its key
      without the prefix. */
  ghost predicate SetsFlag(c: Config, events: seq<Event>, i: nat, f: string) {
    && i < |events| && events[i].Failed? && events[i].id in AfterAll(c, events[..i]).admitted
    && Erase(events[i].id, PREFIX) == f
    && var records := AfterAll(c, events[..i + 1]).records;
      events[i].id in records && records[events[i].id].failures >= ToCaptcha(c)
  }

  /** Event j is a login of f, or a sweep that deletes a record whose key without the prefix is f. */
  ghost predicate ClearsFlag(c: Config, events: seq<Event>, j: nat, f: string) {
    && j < |events|
    && (|| (events[j].Login? && events[j].id == f)
        || (events[j].Sweep? && var records := AfterAll(c, events[..j]).records;
              exists id :: id in records && id !in Swept(c, records, events[j].now) && Erase(id, PREFIX) == f))
  }

  ghost predicate FlagStands(c: Config, events: seq<Event>, i: nat, f: string) {
    SetsFlag(c, events, i, f) && forall j: nat :: i < j < |events| ==> !ClearsFlag(c, events, j, f)
  }

  lemma FlagEarly(c: Config, events: seq<Event>, i: nat, f: string)
    requires i < |events| - 1
    ensures SetsFlag(c, events[..|events| - 1], i, f) <==> SetsFlag(c, events, i, f)
    ensures ClearsFlag(c, events[..|events| - 1], i, f) <==> ClearsFlag(c, events, i, f)
  {
    assert events[..|events| - 1][..i] == events[..i];
    assert events[..|events| - 1][..i + 1] == events[..i + 1];
  }

  lemma FlagStandsStep(c: Config, events: seq<Event>, f: string)
    requires events != []
    ensures var before, last := events[..|events| - 1], |events| - 1;
      (exists i: nat :: FlagStands(c, events, i, f)) <==>
      SetsFlag(c, events, last, f) || ((exists i: nat :: FlagStands(c, before, i, f)) && !ClearsFlag(c, events, last, f))
  {
    var before, last := events[..|events| - 1], |events| - 1;
    if SetsFlag(c, events, last, f) { assert FlagStands(c, events, last, f); }
    forall i: nat | i < last
      ensures FlagStands(c, events, i, f) <==> FlagStands(c, before, i, f) && !ClearsFlag(c, events, last, f)
    {
      FlagStandsOn(c, events, i, f);
    }
  }

  lemma FlagStandsOn(c: Config, events: seq<Event>, i: nat, f: string)
    requires i < |events| - 1
    ensures FlagStands(c, events, i, f) <==>
            FlagStands(c, events[..|events| - 1], i, f) && !ClearsFlag(c, events, |events| - 1, f)
  {
    var before, last := events[..|events| - 1], |events| - 1;
    FlagEarly(c, events, i, f);
    forall j: nat | i < j < last ensures ClearsFlag(c, before, j, f) <==> ClearsFlag(c, events, j, f) {
      FlagEarly(c, events, j, f);
    }
    if FlagStands(c, events, i, f) { assert !ClearsFlag(c, events, last, f); }
    if FlagStands(c, before, i, f) && !ClearsFlag(c, events, last, f) {
      forall j: nat | i < j < |events| ensures !ClearsFlag(c, events, j, f) {
        if j < last { assert !ClearsFlag(c, before, j, f); }
      }
    }
  }

  /** In every run, a key is flagged if and only if a failure that left its session with enough failures
      on record set the flag, and no login or sweep has taken it off since. */
  lemma {:induction false} FlaggedIff(c: Config, events: seq<Event>, f: string)
    ensures f in AfterAll(c, events).flags <==> exists i: nat :: FlagStands(c, events, i, f)
  {
    if events != [] {
      FlaggedIff(c, events[..|events| - 1], f);
      FlagStandsStep(c, events, f);
      FlagStep(c, events, f);
    }
  }

  lemma FlagStep(c: Config, events: seq<Event>, f: string)
    requires events != []
    ensures var s, last := AfterAll(c, events[..|events| - 1]), |events| - 1;
      f in AfterAll(c, events).flags <==>
      SetsFlag(c, events, last, f) || (f in s.flags && !ClearsFlag(c, events, last, f))
  {
    assert events[..|events|] == events;
    RunCounts(c, events[..|events| - 1]);
  }

  ghost predicate Counted(records: Records) { forall id :: id in records ==> records[id].failures >= 1 }

  lemma {:induction false} RunCounts(c: Config, events: seq<Event>)
    ensures Counted(AfterAll(c, events).records)
  {
    if events != [] {
      RunCounts(c, events[..|events| - 1]);
      CountsStep(c, AfterAll(c, events[..|events| - 1]), events[|events| - 1]);
    }
  }

  lemma CountsStep(c: Config, s: Store, e: Event)
    requires Counted(s.records)
    ensures Counted(After(c, s, e).records)
  {
    if e.Sweep? {
      var swept := Swept(c, s.records, e.now);
      forall id | id in swept ensures swept[id].failures >= 1 {
        assert id !in Expired(c, s.records, e.now);
      }
    }
  }

  /** An id that contains the prefix: its failures flag another session, which has no record. */
  lemma ForeignFlag(c: Config, id: string)
    requires Occurs(id, PREFIX) && !NeverFlags(c)
    ensures var s := AfterAll(c, Failures(c, id, ToCaptcha(c)));
      Erase(id, PREFIX) != id && Erase(id, PREFIX) in s.flags && Erase(id, PREFIX) !in s.records
  {
    FailuresCount(c, id, ToCaptcha(c));
    EraseShortens(id, PREFIX);
  }

  /** For the session ids that a container may issue: in every run a flagged id has a record, if
      and only if none of the ids contains the prefix, or the configuration never flags. */
  lemma FlagsBackedIff(c: Config, ids: set<string>)
    ensures (forall events: seq<Event> :: Timely(events) && Among(ids, events) ==> Backed(AfterAll(c, events))) <==>
            NeverFlags(c) || forall id :: id in ids ==> !Occurs(id, PREFIX)
  {
    if NeverFlags(c) || forall id :: id in ids ==> !Occurs(id, PREFIX) {
      forall events: seq<Event> | Timely(events) && Among(ids, events) ensures Backed(AfterAll(c, events)) {
        if NeverFlags(c) { NothingFlagged(c, events); } else { RunBacked(c, ids, events); }
      }
    } else {
      var id :| id in ids && Occurs(id, PREFIX);
      var events := Failures(c, id, ToCaptcha(c));
      FailuresTimely(c, id, ToCaptcha(c));
      ForeignFlag(c, id);
      assert Among(ids, events);
    }
  }

  lemma RunBacked(c: Config, ids: set<string>, events: seq<Event>)
    requires Among(ids, events) && forall id :: id in ids ==> !Occurs(id, PREFIX)
    ensures Backed(AfterAll(c, events))
  {
    RunOwned(c, ids, events);
    var s := AfterAll(c, events);
    forall f | f in s.flags ensures f in s.records { FlagMeansRecord(s.flags, s.records, f); }
  }
}
