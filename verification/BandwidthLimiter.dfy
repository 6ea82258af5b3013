/**
 The token bucket of `bandwidth_limiter.cpp`. Doubles are reals, times are
 seconds on the steady clock. The functions on `Bucket` say what one locked
 region does; the class below is the code, proved to do just that.
 */
module BandwidthLimiter {

  datatype Bucket = Bucket(limit: nat, enabled: bool, tokens: real, capacity: real, lastRefill: real) {

    function Rate(): real { limit as real }
  }

  function Min(a: real, b: real): real { if a <= b then a else b }

  function Init(bytesPerSecond: nat, now: real): Bucket {
    Bucket(bytesPerSecond, bytesPerSecond > 0, bytesPerSecond as real, bytesPerSecond as real, now)
  }

  function Refill(b: Bucket, now: real): Bucket {
    if now > b.lastRefill then
      b.(tokens := Min(b.tokens + (now - b.lastRefill) * b.Rate(), b.capacity), lastRefill := now)
    else b
  }

  /** `calculate_wait_time`: whole microseconds, rounded toward zero. */
  function WaitMicros(b: Bucket, bytes: nat): (us: int)
    ensures us >= 0
  {
    var needed := bytes as real - b.tokens;
    if !b.enabled || needed <= 0.0 || b.Rate() <= 0.0 then 0
    else
      assert needed / b.Rate() >= 0.0;
      (needed / b.Rate() * 1000000.0).Floor
  }

  function Take(b: Bucket, bytes: nat): Bucket {
    b.(tokens := b.tokens - bytes as real)
  }

  datatype Outcome = Granted | NotLimited | Waiting(micros: int)

  /** One round of the loop in `acquire`. */
  function AcquireRound(b: Bucket, bytes: nat, now: real): (Bucket, Outcome) {
    if bytes == 0 || !b.enabled then (b, NotLimited)
    else
      var r := Refill(b, now);
      if r.tokens >= bytes as real then (Take(r, bytes), Granted)
      else if WaitMicros(r, bytes) <= 0 then (Take(r, bytes), Granted)
      else (r, Waiting(WaitMicros(r, bytes)))
  }

  function TryAcquire(b: Bucket, bytes: nat, now: real): (Bucket, Outcome) {
    if bytes == 0 || !b.enabled then (b, NotLimited)
    else
      var r := Refill(b, now);
      if r.tokens >= bytes as real then (Take(r, bytes), Granted) else (r, Waiting(0))
  }

  function SetLimit(b: Bucket, bytesPerSecond: nat, now: real): Bucket {
    if bytesPerSecond == 0 then b.(limit := 0, enabled := false)
    else
      var capacity := bytesPerSecond as real;
      var tokens :=
        if b.limit > 0 && b.capacity > 0.0 then Min(b.tokens * (capacity / b.capacity), capacity) else capacity;
      Bucket(bytesPerSecond, true, tokens, capacity, now)
  }

  function Enable(b: Bucket, now: real): Bucket {
    if b.limit > 0 then b.(lastRefill := now, enabled := true) else b
  }

  function Reset(b: Bucket, now: real): Bucket {
    b.(tokens := b.capacity, lastRefill := now)
  }

  /** Any locked region of the limiter; `RefillAt` is the wait predicate or `available_tokens`. */
  datatype Event =
    | TryAcquireAt(bytes: nat, now: real)
    | AcquireAt(bytes: nat, now: real)
    | RefillAt(now: real)
    | SetLimitAt(bytesPerSecond: nat, now: real)
    | EnableAt(now: real)
    | ResetAt(now: real)
    | Disable

  function Next(b: Bucket, e: Event): Bucket {
    match e
    case TryAcquireAt(bytes, now) => TryAcquire(b, bytes, now).0
    case AcquireAt(bytes, now) => AcquireRound(b, bytes, now).0
    case RefillAt(now) => Refill(b, now)
    case SetLimitAt(bytesPerSecond, now) => SetLimit(b, bytesPerSecond, now)
    case EnableAt(now) => Enable(b, now)
    case ResetAt(now) => Reset(b, now)
    case Disable => b.(enabled := false)
  }

  /** The bytes that an event grants under the limit. */
  function GrantOf(b: Bucket, e: Event): nat {
    match e
    case TryAcquireAt(bytes, now) => if TryAcquire(b, bytes, now).1.Granted? then bytes else 0
    case AcquireAt(bytes, now) => if AcquireRound(b, bytes, now).1.Granted? then bytes else 0
    case _ => 0
  }

  function Run(b: Bucket, events: seq<Event>): Bucket {
    if events == [] then b else Next(Run(b, events[..|events| - 1]), events[|events| - 1])
  }

  function TotalGrant(b: Bucket, events: seq<Event>): nat {
    if events == [] then 0
    else TotalGrant(b, events[..|events| - 1]) + GrantOf(Run(b, events[..|events| - 1]), events[|events| - 1])
  }

  // ---- The token range -----------------------------------------------------

  /** Tokens never exceed the capacity and the debt never exceeds one microsecond of it. */
  ghost predicate InRange(b: Bucket) {
    && b.capacity >= 0.0
    && -b.capacity <= b.tokens * 1000000.0
    && b.tokens <= b.capacity
    && (b.limit > 0 ==> b.capacity == b.Rate())
    && (b.enabled ==> b.limit > 0)
  }

  lemma MulPositive(x: real, y: real)
    requires x >= 0.0 && y >= 0.0
    ensures x * y >= 0.0
  {
  }

  lemma RefillInRange(b: Bucket, now: real)
    requires InRange(b)
    ensures InRange(Refill(b, now)) && Refill(b, now).tokens >= b.tokens
  {
    if now > b.lastRefill {
      MulPositive(now - b.lastRefill, b.Rate());
    }
  }

  lemma Quotient(x: real, y: real)
    requires y > 0.0
    ensures x / y * y == x
  {
  }

  lemma MulOrder(x: real, y: real, z: real)
    requires z > 0.0
    ensures x < y <==> x * z < y * z
  {
  }

  lemma BelowOne(x: real, r: real)
    requires r > 0.0
    ensures x < 1.0 <==> x * r < r
  {
    MulOrder(x, 1.0, r);
    assert 1.0 * r == r;
  }

  lemma TimesBounds(x: real, low: real, high: real, r: real)
    requires r > 0.0 && low <= x < high
    ensures low * r <= x * r < high * r
  {
    MulOrder(x, low, r);
    MulOrder(x, high, r);
  }

  /** A wait of `x` microseconds cut to the whole number `us`, when `n` millionths of a token are missing. */
  lemma CutWait(x: real, us: int, whole: real, r: real, n: real)
    requires r > 0.0 && whole == us as real && us >= 0 && whole <= x < whole + 1.0 && x * r == n
    ensures us <= 0 <==> n < r
    ensures whole * r <= n < (whole + 1.0) * r
  {
    TimesBounds(x, whole, whole + 1.0, r);
    BelowOne(x, r);
    assert us <= 0 <==> x < 1.0;
  }

  lemma WaitMicrosMeans(b: Bucket, bytes: nat) returns (x: real)
    requires b.enabled && b.limit > 0 && b.tokens < bytes as real
    ensures b.Rate() > 0.0 && x * b.Rate() == (bytes as real - b.tokens) * 1000000.0
    ensures WaitMicros(b, bytes) >= 0
    ensures WaitMicros(b, bytes) as real <= x < WaitMicros(b, bytes) as real + 1.0
  {
    var needed, r := bytes as real - b.tokens, b.Rate();
    x := needed / r * 1000000.0;
    assert WaitMicros(b, bytes) == x.Floor;
    hide WaitMicros;
    Quotient(needed, r);
    Reorder(needed / r, 1000000.0, r);
  }

  /** A computed wait of zero microseconds means that less than one microsecond's worth of tokens is missing. */
  lemma ZeroWait(b: Bucket, bytes: nat)
    requires b.enabled && b.limit > 0 && b.tokens < bytes as real
    ensures WaitMicros(b, bytes) <= 0 <==> (bytes as real - b.tokens) * 1000000.0 < b.Rate()
    ensures WaitMicros(b, bytes) as real * b.Rate() <= (bytes as real - b.tokens) * 1000000.0
    ensures (bytes as real - b.tokens) * 1000000.0 < (WaitMicros(b, bytes) as real + 1.0) * b.Rate()
  {
    hide *;
    var x := WaitMicrosMeans(b, bytes);
    var us := WaitMicros(b, bytes);
    CutWait(x, us, us as real, b.Rate(), (bytes as real - b.tokens) * 1000000.0);
  }

  lemma Reorder(x: real, y: real, z: real)
    ensures (x * y) * z == (x * z) * y
  {
  }

  /** Refilling earns the limit for each second since the last refill, up to the capacity, and never takes tokens. */
  lemma RefillMeans(b: Bucket, now: real)
    requires InRange(b)
    ensures var c := Refill(b, now);
            && (now <= b.lastRefill ==> c == b)
            && (now > b.lastRefill ==>
                  var earned := (now - b.lastRefill) * b.limit as real;
                  && c.lastRefill == now && b.tokens <= c.tokens <= b.capacity
                  && (b.tokens + earned <= b.capacity ==> c.tokens == b.tokens + earned)
                  && (b.tokens + earned >= b.capacity ==> c.tokens == b.capacity))
  {
    RefillInRange(b, now);
  }

  /** A grant takes exactly the bytes it grants out of the refilled bucket; any other round takes nothing. */
  lemma GrantTakesExactly(b: Bucket, bytes: nat, now: real)
    ensures var (c, o) := AcquireRound(b, bytes, now);
            && (o.NotLimited? <==> bytes == 0 || !b.enabled) && (o.NotLimited? ==> c == b)
            && (o.Granted? ==> c == Refill(b, now).(tokens := c.tokens) &&
                               c.tokens + bytes as real == Refill(b, now).tokens)
            && (o.Waiting? ==> c == Refill(b, now) && o.micros > 0)
    ensures var (c, o) := TryAcquire(b, bytes, now);
            && (o.NotLimited? <==> bytes == 0 || !b.enabled) && (o.NotLimited? ==> c == b)
            && (o.Granted? ==> c == Refill(b, now).(tokens := c.tokens) &&
                               c.tokens + bytes as real == Refill(b, now).tokens)
            && (o.Waiting? ==> c == Refill(b, now))
  {
    hide Refill, WaitMicros;
  }

  lemma AcquireInRange(b: Bucket, bytes: nat, now: real)
    requires InRange(b)
    ensures InRange(AcquireRound(b, bytes, now).0)
  {
    var r := Refill(b, now);
    RefillInRange(b, now);
    if b.enabled && r.tokens < bytes as real {
      ZeroWait(r, bytes);
    }
    hide WaitMicros, Refill;
    RefillFrame(b, now);
  }

  lemma RefillFrame(b: Bucket, now: real)
    ensures Refill(b, now) == b.(tokens := Refill(b, now).tokens, lastRefill := Refill(b, now).lastRefill)
  {
  }

  lemma ScaleInRange(b: Bucket, capacity: real)
    requires InRange(b) && b.capacity > 0.0 && capacity > 0.0
    ensures -capacity <= Min(b.tokens * (capacity / b.capacity), capacity) * 1000000.0
  {
    var ratio := capacity / b.capacity;
    Quotient(capacity, b.capacity);
    assert ratio > 0.0 by {
      if ratio <= 0.0 {
        MulPositive(-ratio, b.capacity);
      }
    }
    MulOrder(b.tokens * 1000000.0, -b.capacity, ratio);
    Reorder(b.tokens, 1000000.0, ratio);
    assert (b.tokens * ratio) * 1000000.0 >= -b.capacity * ratio;
  }

  lemma SetLimitInRange(b: Bucket, bytesPerSecond: nat, now: real)
    requires InRange(b)
    ensures InRange(SetLimit(b, bytesPerSecond, now))
  {
    if bytesPerSecond > 0 && b.limit > 0 && b.capacity > 0.0 {
      ScaleInRange(b, bytesPerSecond as real);
    }
  }

  lemma ScaleExact(tokens: real, old_: real, new_: real)
    requires old_ > 0.0
    ensures (tokens * (new_ / old_)) * old_ == tokens * new_
  {
    Quotient(new_, old_);
    Reorder(tokens, new_ / old_, old_);
    assert (tokens * old_) * (new_ / old_) == tokens * (new_ / old_ * old_);
  }

  lemma ScaleOrder(tokens: real, old_: real, new_: real)
    requires old_ > 0.0 && new_ > 0.0 && tokens <= old_
    ensures tokens * (new_ / old_) <= new_
  {
    ScaleExact(tokens, old_, new_);
    MulOrder(old_, tokens, new_);
    MulOrder(new_, tokens * (new_ / old_), old_);
    Commute(new_, old_);
  }

  /**
   A new positive limit keeps the fill level: the tokens are to the new
   capacity as they were to the old one. Without an old limit the bucket
   starts full. Limit zero only switches the limiter off.
   */
  lemma SetLimitKeepsLevel(b: Bucket, n: nat, now: real)
    requires InRange(b)
    ensures var c := SetLimit(b, n, now);
            && (n > 0 ==> c.limit == n && c.enabled && c.capacity == n as real && c.lastRefill == now)
            && (n > 0 && b.limit > 0 ==> c.tokens * b.capacity == b.tokens * n as real)
            && (n > 0 && b.limit == 0 ==> c.tokens == n as real)
            && (n == 0 ==> c == b.(limit := 0, enabled := false))
  {
    if n > 0 && b.limit > 0 {
      ScaleExact(b.tokens, b.capacity, n as real);
      ScaleOrder(b.tokens, b.capacity, n as real);
    }
  }

  lemma SameProduct(x: real, y: real, z: real)
    requires z > 0.0 && x * z == y * z
    ensures x == y
  {
    MulOrder(x, y, z);
    MulOrder(y, x, z);
  }

  /** Of two positive limits in a row only the last one counts. */
  lemma SetLimitTwice(b: Bucket, m: nat, n: nat, t1: real, t2: real)
    requires InRange(b) && m > 0 && n > 0
    ensures SetLimit(SetLimit(b, m, t1), n, t2) == SetLimit(b, n, t2)
  {
    var c := SetLimit(b, m, t1);
    SetLimitInRange(b, m, t1);
    SetLimitKeepsLevel(b, m, t1);
    SetLimitKeepsLevel(b, n, t2);
    SetLimitKeepsLevel(c, n, t2);
    assert b.limit > 0 ==> b.capacity > 0.0;
    hide SetLimit, InRange;
    LevelTwice(b.tokens, c.tokens, SetLimit(b, n, t2).tokens, SetLimit(c, n, t2).tokens, b.capacity, m as real,
               n as real, b.limit > 0);
  }

  lemma LevelTwice(x: real, y: real, z: real, z': real, cap: real, m: real, n: real, limited: bool)
    requires m > 0.0 && n > 0.0 && (limited ==> cap > 0.0)
    requires limited ==> y * cap == x * m && z * cap == x * n
    requires !limited ==> y == m && z == n
    requires z' * m == y * n
    ensures z' == z
  {
    if limited {
      assert (z' * m) * cap == (y * n) * cap;
      assert (y * n) * cap == (y * cap) * n == (x * m) * n;
      assert (z * m) * cap == (z * cap) * m == (x * n) * m;
      assert (x * m) * n == (x * n) * m;
      SameProduct(z' * m, z * m, cap);
      SameProduct(z', z, m);
    } else {
      assert m * n == n * m;
      SameProduct(z', z, m);
    }
  }

  /** `reset` fills the bucket; `enable` switches on a limiter that has a limit, and forgets the time it was off. */
  lemma ResetAndEnable(b: Bucket, now: real)
    ensures Reset(b, now).tokens == b.capacity && Reset(b, now).lastRefill == now
    ensures Reset(b, now).limit == b.limit && Reset(b, now).capacity == b.capacity && Reset(b, now).enabled == b.enabled
    ensures Enable(b, now).enabled == (b.enabled || b.limit > 0)
    ensures Enable(b, now).lastRefill == if b.limit > 0 then now else b.lastRefill
    ensures Enable(b, now).tokens == b.tokens && Enable(b, now).limit == b.limit
    ensures Enable(b, now).capacity == b.capacity
  {
  }

  /** Every locked region keeps the token range. */
  lemma NextInRange(b: Bucket, e: Event)
    requires InRange(b)
    ensures InRange(Next(b, e))
  {
    hide AcquireRound, Refill, SetLimit, WaitMicros;
    match e {
      case TryAcquireAt(bytes, now) => RefillInRange(b, now);
      case AcquireAt(bytes, now) => AcquireInRange(b, bytes, now);
      case RefillAt(now) => RefillInRange(b, now);
      case SetLimitAt(bytesPerSecond, now) => SetLimitInRange(b, bytesPerSecond, now);
      case _ =>
    }
  }

  /** The range holds after every sequence of calls, starting from any limit. */
  lemma {:induction false} RunInRange(bytesPerSecond: nat, now: real, events: seq<Event>)
    ensures InRange(Run(Init(bytesPerSecond, now), events))
  {
    hide Next;
    if events != [] {
      RunInRange(bytesPerSecond, now, events[..|events| - 1]);
      NextInRange(Run(Init(bytesPerSecond, now), events[..|events| - 1]), events[|events| - 1]);
    }
  }

  lemma Distribute(x: real, y: real, z: real)
    ensures x * z + y * z == (x + y) * z
  {
  }

  /** A refill in two steps gives the same bucket as one refill. */
  lemma RefillSplits(b: Bucket, t1: real, t2: real)
    requires InRange(b) && b.lastRefill <= t1 <= t2
    ensures Refill(Refill(b, t1), t2) == Refill(b, t2)
  {
    Distribute(t1 - b.lastRefill, t2 - t1, b.Rate());
    if t1 > b.lastRefill {
      MulPositive(t1 - b.lastRefill, b.Rate());
    }
    if t2 > t1 {
      MulPositive(t2 - t1, b.Rate());
    }
  }

  // ---- The rate bound ------------------------------------------------------

  function TimeOf(e: Event): real {
    match e
    case TryAcquireAt(_, now) => now
    case AcquireAt(_, now) => now
    case RefillAt(now) => now
    case SetLimitAt(_, now) => now
    case EnableAt(now) => now
    case ResetAt(now) => now
    case Disable => 0.0
  }

  /** The time of the last event, or `from` if there is none. */
  function EndTime(events: seq<Event>, from: real): real {
    if events == [] then from else TimeOf(events[|events| - 1])
  }

  /** An event that neither changes the limit nor fills the bucket. */
  predicate IsPaced(e: Event) {
    e.TryAcquireAt? || e.AcquireAt? || e.RefillAt? || e.EnableAt?
  }

  /** Acquisitions, refills and repeated enabling with times in order from `from` on, the limit being left alone. */
  ghost predicate Paced(events: seq<Event>, from: real) {
    && (forall k :: 0 <= k < |events| ==> IsPaced(events[k]))
    && (forall k :: 0 <= k < |events| ==> from <= TimeOf(events[k]))
    && (forall j, k :: 0 <= j < k < |events| ==> TimeOf(events[j]) <= TimeOf(events[k]))
  }

  lemma LevelGrows(b: Bucket, t1: real, t2: real)
    requires InRange(b) && b.lastRefill <= t1 <= t2
    ensures Refill(b, t2).tokens <= Refill(b, t1).tokens + (t2 - t1) * b.Rate()
  {
    RefillSplits(b, t1, t2);
    MulPositive(t2 - t1, b.Rate());
  }

  /** One such event: what it grants comes out of the level at that time. */
  lemma GrantPaidFor(b: Bucket, e: Event)
    requires InRange(b) && b.enabled && IsPaced(e) && b.lastRefill <= TimeOf(e)
    ensures var b' := Next(b, e);
            && b'.lastRefill <= TimeOf(e) && b'.limit == b.limit && b'.capacity == b.capacity && b'.enabled
            && Refill(b', TimeOf(e)).tokens + GrantOf(b, e) as real <= Refill(b, TimeOf(e)).tokens
  {
    hide WaitMicros;
    RefillInRange(b, TimeOf(e));
  }

  lemma {:induction false} LevelAndGrants(b: Bucket, events: seq<Event>, from: real)
    requires InRange(b) && b.enabled && b.lastRefill <= from && Paced(events, from)
    ensures var b' := Run(b, events);
            && InRange(b') && b'.enabled && b'.limit == b.limit && b'.capacity == b.capacity
            && from <= EndTime(events, from) && b'.lastRefill <= EndTime(events, from)
            && Refill(b', EndTime(events, from)).tokens + TotalGrant(b, events) as real
               <= Refill(b, from).tokens + (EndTime(events, from) - from) * b.Rate()
  {
    hide Refill, Next, GrantOf;
    if events == [] {
      assert (from - from) * b.Rate() == 0.0;
    } else {
      var before, e := events[..|events| - 1], events[|events| - 1];
      LevelAndGrants(b, before, from);
      var s := Run(b, before);
      var t, t' := EndTime(before, from), TimeOf(e);
      LevelGrows(s, t, t');
      GrantPaidFor(s, e);
      NextInRange(s, e);
      Distribute(t - from, t' - t, b.Rate());
    }
  }

  /** What the level may sink to is one microsecond's worth. */
  lemma DebtIsSmall(level: real, rate: real)
    requires -rate <= level * 1000000.0
    ensures -(rate / 1000000.0) <= level
  {
  }

  lemma WindowArithmetic(granted: real, level: real, first: real, rate: real, used: real, rest: real, window: real)
    requires level + granted <= first + used * rate && first <= rate && -rate <= level * 1000000.0
    requires rate >= 0.0 && rest >= 0.0 && used + rest == window
    ensures granted <= rate + rate * window + rate / 1000000.0
  {
    DebtIsSmall(level, rate);
    MulPositive(rest, rate);
    Distribute(used, rest, rate);
    Commute(rate, window);
    assert (used + rest) * rate == window * rate;
  }

  lemma Commute(x: real, y: real)
    ensures x * y == y * x
  {
  }

  lemma RangeMeans(b: Bucket)
    requires InRange(b) && b.limit > 0
    ensures b.capacity == b.Rate() >= 0.0 && -b.Rate() <= b.tokens * 1000000.0 && b.tokens <= b.Rate()
  {
  }

  /**
   In any time window with a fixed limit, all grants together are at most the
   capacity, plus rate times duration, plus one microsecond's worth: the
   slack of the truncated wait is paid once, not once per grant.
   */
  lemma RateBound(b: Bucket, events: seq<Event>, from: real, to: real)
    requires InRange(b) && b.enabled && b.lastRefill <= from && Paced(events, from) && EndTime(events, from) <= to
    ensures TotalGrant(b, events) as real <= b.capacity + b.Rate() * (to - from) + b.Rate() / 1000000.0
  {
    hide *;
    LevelAndGrants(b, events, from);
    var end := EndTime(events, from);
    var b' := Run(b, events);
    EnabledHasLimit(b);
    RefillInRange(b', end);
    RefillInRange(b, from);
    RefillFrame(b, from);
    RefillFrame(b', end);
    RangeMeans(b);
    RangeMeans(Refill(b', end));
    RangeMeans(Refill(b, from));
    SameRate(b, Refill(b', end));
    SameRate(b, Refill(b, from));
    WindowArithmetic(TotalGrant(b, events) as real, Refill(b', end).tokens, Refill(b, from).tokens, b.Rate(),
                     end - from, to - end, to - from);
  }

  lemma EnabledHasLimit(b: Bucket)
    requires InRange(b) && b.enabled
    ensures b.limit > 0
  {
  }

  lemma SameRate(b: Bucket, c: Bucket)
    requires b.limit == c.limit
    ensures b.Rate() == c.Rate()
  {
  }

  /** Without that slack the bound is false: a full bucket of 2 MB is emptied, and one more byte passes at once. */
  lemma SlackIsNeeded()
    ensures var b := Init(2000000, 0.0);
            var events := [AcquireAt(2000000, 0.0), AcquireAt(1, 0.0)];
            Paced(events, 0.0) && TotalGrant(b, events) == 2000001
  {
    var b := Init(2000000, 0.0);
    var first, second := AcquireAt(2000000, 0.0), AcquireAt(1, 0.0);
    var events := [first, second];
    var b1 := Next(b, first);
    assert b1.tokens == 0.0 && GrantOf(b, first) == 2000000;
    ZeroWait(b1, 1);
    hide WaitMicros;
    assert GrantOf(b1, second) == 1;
    assert events[..1] == [first] && [first][..0] == [];
    hide Next, GrantOf;
    assert Run(b, []) == b && TotalGrant(b, []) == 0;
    assert Run(b, [first]) == b1 && TotalGrant(b, [first]) == 2000000;
    assert TotalGrant(b, events) == TotalGrant(b, [first]) + GrantOf(b1, second);
    assert events == [AcquireAt(2000000, 0.0), AcquireAt(1, 0.0)];
  }

  // ---- When a request is granted -------------------------------------------

  /** A request that the limiter can ever grant: less than the capacity plus one microsecond's worth. */
  predicate Grantable(b: Bucket, bytes: nat) {
    (bytes as real - b.capacity) * 1000000.0 < b.Rate()
  }

  /** A round grants exactly when less than one microsecond's worth of tokens is missing. */
  lemma GrantedIff(b: Bucket, bytes: nat, now: real)
    requires InRange(b) && b.enabled && bytes > 0
    ensures AcquireRound(b, bytes, now).1.Granted? <==>
            (bytes as real - Refill(b, now).tokens) * 1000000.0 < b.Rate()
  {
    var r := Refill(b, now);
    RefillInRange(b, now);
    RefillFrame(b, now);
    if r.tokens < bytes as real {
      ZeroWait(r, bytes);
    }
    hide WaitMicros, Refill;
  }

  /** `try_acquire` of more than the capacity is refused at all times, of no more than the tokens it is granted. */
  lemma TryAcquireIff(b: Bucket, bytes: nat, now: real)
    requires InRange(b) && b.enabled && bytes > 0
    ensures TryAcquire(b, bytes, now).1.Granted? <==> bytes as real <= Refill(b, now).tokens
    ensures bytes as real > b.capacity ==> !TryAcquire(b, bytes, now).1.Granted?
  {
    RefillInRange(b, now);
    RefillFrame(b, now);
    hide Refill;
  }

  lemma RangeFacts(b: Bucket)
    requires InRange(b) && b.enabled
    ensures b.tokens <= b.capacity && b.Rate() > 0.0
  {
  }

  lemma GrantableMeans(b: Bucket, r: Bucket, bytes: nat)
    requires r.capacity == b.capacity && r.limit == b.limit
    ensures Grantable(b, bytes) <==> (bytes as real - r.capacity) * 1000000.0 < r.Rate()
  {
  }

  /**
   An uncontended `acquire` of a grantable size: after it has slept the time
   it computed, the next round grants, although the time was truncated to
   whole microseconds.
   */
  lemma OneSleepIsEnough(b: Bucket, bytes: nat, now: real, later: real)
    requires InRange(b) && b.enabled && bytes > 0 && Grantable(b, bytes) && b.lastRefill <= now
    requires AcquireRound(b, bytes, now).1.Waiting?
    requires later >= now + AcquireRound(b, bytes, now).1.micros as real / 1000000.0
    ensures AcquireRound(AcquireRound(b, bytes, now).0, bytes, later).1.Granted?
  {
    hide *;
    WaitingState(b, bytes, now);
    var r, us := AcquireRound(b, bytes, now).0, AcquireRound(b, bytes, now).1.micros;
    RangeFacts(r);
    GrantableMeans(b, r, bytes);
    SleptEnough(r, bytes, us, later);
    GrantedIff(r, bytes, later);
  }

  lemma SleptEnough(r: Bucket, bytes: nat, us: int, later: real)
    requires r.Rate() > 0.0 && us > 0 && later - r.lastRefill >= us as real / 1000000.0 && r.tokens <= r.capacity
    requires (bytes as real - r.tokens) * 1000000.0 < (us as real + 1.0) * r.Rate()
    requires (bytes as real - r.capacity) * 1000000.0 < r.Rate()
    ensures (bytes as real - Refill(r, later).tokens) * 1000000.0 < r.Rate()
  {
    hide Refill;
    SleepArithmetic(r.tokens, r.capacity, r.Rate(), bytes as real, us as real, later - r.lastRefill);
    RefillLater(r, later);
  }

  /** What a waiting round knows: it is refilled up to now, and the wait is one microsecond short at most. */
  lemma WaitingState(b: Bucket, bytes: nat, now: real)
    requires InRange(b) && b.enabled && bytes > 0 && b.lastRefill <= now
    requires AcquireRound(b, bytes, now).1.Waiting?
    ensures var (r, outcome) := AcquireRound(b, bytes, now);
            && InRange(r) && r.enabled && r.lastRefill == now && r.capacity == b.capacity && r.limit == b.limit
            && outcome.micros > 0
            && (bytes as real - r.tokens) * 1000000.0 < (outcome.micros as real + 1.0) * r.Rate()
  {
    var r := Refill(b, now);
    RefillInRange(b, now);
    RefillFrame(b, now);
    assert r.lastRefill == now;
    hide Refill;
    ZeroWait(r, bytes);
    hide WaitMicros;
  }

  lemma RefillLater(b: Bucket, later: real)
    requires later > b.lastRefill
    ensures Refill(b, later).tokens == Min(b.tokens + (later - b.lastRefill) * b.Rate(), b.capacity)
  {
  }

  lemma SleepArithmetic(tokens: real, capacity: real, rate: real, bytes: real, us: real, slept: real)
    requires rate > 0.0 && us >= 0.0 && slept >= us / 1000000.0 && tokens <= capacity
    requires (bytes - tokens) * 1000000.0 < (us + 1.0) * rate && (bytes - capacity) * 1000000.0 < rate
    ensures (bytes - Min(tokens + slept * rate, capacity)) * 1000000.0 < rate
    ensures us > 0.0 ==> slept > 0.0
  {
    var gain := us / 1000000.0 * rate;
    MulPositive(slept - us / 1000000.0, rate);
    assert slept * rate >= gain;
    assert gain * 1000000.0 == us * rate by {
      Reorder(us / 1000000.0, rate, 1000000.0);
    }
    assert (us + 1.0) * rate == us * rate + rate;
  }

  // ---- The code ------------------------------------------------------------

  /** One wait of `acquire`: meanwhile other threads get the lock, then the wait ends. */
  datatype Wait = Wait(others: seq<Event>, wakeup: real)

  /** The rounds of one `acquire`: a first one, and one after every wait until it is done. */
  function AcquireRounds(b: Bucket, bytes: nat, now: real, waits: seq<Wait>): (Bucket, Outcome)
    decreases |waits|
  {
    var (b', outcome) := AcquireRound(b, bytes, now);
    if !outcome.Waiting? || waits == [] then (b', outcome)
    else AcquireRounds(Refill(Run(b', waits[0].others), waits[0].wakeup), bytes, waits[0].wakeup, waits[1..])
  }

  /** `bandwidth_limiter`; `now` is what the steady clock answers. */
  class Limiter {
    var bytesPerSecond: nat
    var enabled: bool
    var tokens: real
    var capacity: real
    var lastRefill: real

    function State(): Bucket
      reads this
    {
      Bucket(bytesPerSecond, enabled, tokens, capacity, lastRefill)
    }

    ghost predicate Valid()
      reads this
    {
      InRange(State())
    }

    constructor (limit: nat, now: real)
      ensures Valid() && State() == Init(limit, now)
      ensures bytesPerSecond == limit && enabled == (limit > 0)
      ensures tokens == capacity == limit as real && lastRefill == now
    {
      bytesPerSecond, enabled, tokens, capacity, lastRefill := limit, limit > 0, 0.0, 0.0, now;
      if limit > 0 {
        capacity := limit as real;
        tokens := limit as real;
      }
    }

    method RefillTokens(now: real)
      requires Valid()
      modifies this
      ensures Valid() && State() == Refill(old(State()), now)
    {
      RefillInRange(State(), now);
      var elapsed := now - lastRefill;
      if elapsed > 0.0 {
        var newTokens := elapsed * bytesPerSecond as real;
        tokens := Min(tokens + newTokens, capacity);
        lastRefill := now;
      }
    }

    method TryAcquireTokens(bytes: nat, now: real) returns (granted: bool)
      requires Valid()
      modifies this
      ensures Valid() && State() == TryAcquire(old(State()), bytes, now).0
      ensures granted <==> !TryAcquire(old(State()), bytes, now).1.Waiting?
      ensures old(enabled) && bytes as real > old(capacity) && bytes > 0 ==> !granted
    {
      NextInRange(State(), TryAcquireAt(bytes, now));
      if bytes == 0 {
        return true;
      }
      if !enabled {
        return true;
      }
      RefillTokens(now);
      if tokens >= bytes as real {
        tokens := tokens - bytes as real;
        return true;
      }
      return false;
    }

    method SetLimitTo(limit: nat, now: real)
      requires Valid()
      modifies this
      ensures Valid() && State() == SetLimit(old(State()), limit, now)
      ensures limit > 0 ==> enabled && bytesPerSecond == limit && capacity == limit as real && lastRefill == now
      ensures limit > 0 && old(bytesPerSecond) > 0 ==> tokens * old(capacity) == old(tokens) * limit as real
      ensures limit > 0 && old(bytesPerSecond) == 0 ==> tokens == limit as real
    {
      SetLimitInRange(State(), limit, now);
      SetLimitKeepsLevel(State(), limit, now);
      var oldLimit := bytesPerSecond;
      bytesPerSecond := limit;
      if limit > 0 {
        var newCapacity := limit as real;
        if oldLimit > 0 && capacity > 0.0 {
          var ratio := newCapacity / capacity;
          tokens := Min(tokens * ratio, newCapacity);
        } else {
          tokens := newCapacity;
        }
        capacity := newCapacity;
        enabled := true;
        lastRefill := now;
      } else {
        enabled := false;
      }
    }

    method EnableLimit(now: real)
      requires Valid()
      modifies this
      ensures Valid() && State() == Enable(old(State()), now)
    {
      if bytesPerSecond > 0 {
        lastRefill := now;
        enabled := true;
      }
    }

    method ResetBucket(now: real)
      requires Valid()
      modifies this
      ensures Valid() && State() == Reset(old(State()), now)
    {
      tokens := capacity;
      lastRefill := now;
    }

    method DisableLimit()
      requires Valid()
      modifies this
      ensures Valid() && State() == Next(old(State()), Disable)
    {
      enabled := false;
    }

    /** One round of the loop in `acquire`. */
    method AcquireOnce(bytes: nat, now: real) returns (granted: bool)
      requires Valid() && bytes > 0 && enabled
      modifies this
      ensures Valid() && State() == AcquireRound(old(State()), bytes, now).0
      ensures AcquireRound(old(State()), bytes, now).1 ==
              if granted then Granted else Waiting(WaitMicros(Refill(old(State()), now), bytes))
    {
      hide WaitMicros, Refill;
      AcquireInRange(State(), bytes, now);
      RefillFrame(State(), now);
      RefillTokens(now);
      if tokens >= bytes as real {
        tokens := tokens - bytes as real;
        return true;
      }
      var waitTime := WaitMicros(State(), bytes);
      if waitTime <= 0 {
        tokens := tokens - bytes as real;
        return true;
      }
      return false;
    }

    /** What another thread does with the lock. */
    method Perform(e: Event)
      requires Valid()
      modifies this
      ensures Valid() && State() == Next(old(State()), e)
    {
      hide WaitMicros, Refill, SetLimit;
      match e {
        case TryAcquireAt(bytes, now) => var _ := TryAcquireTokens(bytes, now);
        case AcquireAt(bytes, now) =>
          if bytes > 0 && enabled {
            var _ := AcquireOnce(bytes, now);
          }
        case RefillAt(now) => RefillTokens(now);
        case SetLimitAt(limit, now) => SetLimitTo(limit, now);
        case EnableAt(now) => EnableLimit(now);
        case ResetAt(now) => ResetBucket(now);
        case Disable => DisableLimit();
      }
    }

    method PerformAll(events: seq<Event>)
      requires Valid()
      modifies this
      ensures Valid() && State() == Run(old(State()), events)
    {
      hide Next;
      for k := 0 to |events|
        invariant Valid() && State() == Run(old(State()), events[..k])
      {
        assert events[..k + 1][..k] == events[..k];
        Perform(events[k]);
      }
      assert events[..|events|] == events;
    }

    /**
     `acquire`, the clock answering `now` at first and then the times at which
     the waits end; other threads do what they like during a wait. The result
     is false when the call still waits after the last one.
     */
    method Acquire(bytes: nat, now: real, waits: seq<Wait>) returns (done: bool)
      requires Valid()
      modifies this
      ensures Valid()
      ensures State() == AcquireRounds(old(State()), bytes, now, waits).0
      ensures done <==> !AcquireRounds(old(State()), bytes, now, waits).1.Waiting?
    {
      if bytes == 0 || !enabled {
        return true;
      }
      hide WaitMicros, Refill, Run;
      ghost var b := State();
      var time, k := now, 0;
      while enabled
        invariant Valid() && k <= |waits|
        invariant AcquireRounds(State(), bytes, time, waits[k..]) == AcquireRounds(b, bytes, now, waits)
        decreases |waits| - k
      {
        var granted := AcquireOnce(bytes, time);
        if granted {
          return true;
        }
        if k == |waits| {
          return false;
        }
        PerformAll(waits[k].others);
        time := waits[k].wakeup;
        k := k + 1;
        RefillFrame(State(), time);
        RefillTokens(time);
      }
      return true;
    }
  }

  // ---- When `acquire` returns ----------------------------------------------

  /** On a grantable size, with one undisturbed wait no shorter than computed, it returns with the grant. */
  lemma AcquireDoneAfterOneSleep(b: Bucket, bytes: nat, now: real, wakeup: real)
    requires InRange(b) && b.enabled && bytes > 0 && Grantable(b, bytes) && b.lastRefill <= now
    requires AcquireRound(b, bytes, now).1.Waiting? ==>
               wakeup >= now + AcquireRound(b, bytes, now).1.micros as real / 1000000.0
    ensures AcquireRounds(b, bytes, now, [Wait([], wakeup)]).1.Granted?
  {
    if AcquireRound(b, bytes, now).1.Waiting? {
      OneSleepIsEnough(b, bytes, now, wakeup);
      var b' := AcquireRound(b, bytes, now).0;
      RefillTwice(b', wakeup);
      hide WaitMicros, Refill;
      assert AcquireRound(Refill(b', wakeup), bytes, wakeup).1 == AcquireRound(b', bytes, wakeup).1 by {
        RefillFrame(b', wakeup);
      }
      assert [Wait([], wakeup)][1..] == [];
    }
  }

  /** During the waits nobody changes the limit or disables the limiter. */
  ghost predicate LimitLeftAlone(waits: seq<Wait>) {
    forall k, j :: 0 <= k < |waits| && 0 <= j < |waits[k].others| ==>
                     !waits[k].others[j].SetLimitAt? && !waits[k].others[j].Disable?
  }

  lemma {:induction false} OthersKeepLimit(b: Bucket, events: seq<Event>)
    requires InRange(b) && b.enabled
    requires forall j :: 0 <= j < |events| ==> !events[j].SetLimitAt? && !events[j].Disable?
    ensures var b' := Run(b, events);
            InRange(b') && b'.enabled && b'.limit == b.limit && b'.capacity == b.capacity
  {
    if events != [] {
      var e := events[|events| - 1];
      var before := Run(b, events[..|events| - 1]);
      OthersKeepLimit(b, events[..|events| - 1]);
      NextInRange(before, e);
      hide WaitMicros;
    }
  }

  /** A larger request waits for ever: however long, and whatever others acquire meanwhile. */
  lemma {:induction false} Starves(b: Bucket, bytes: nat, now: real, waits: seq<Wait>)
    requires InRange(b) && b.enabled && bytes > 0 && !Grantable(b, bytes) && LimitLeftAlone(waits)
    ensures AcquireRounds(b, bytes, now, waits).1.Waiting?
    decreases |waits|
  {
    hide WaitMicros, Refill, Run;
    GrantedIff(b, bytes, now);
    RefillInRange(b, now);
    RefillFrame(b, now);
    AcquireInRange(b, bytes, now);
    if waits != [] {
      var b1 := AcquireRound(b, bytes, now).0;
      OthersKeepLimit(b1, waits[0].others);
      var b2 := Run(b1, waits[0].others);
      RefillInRange(b2, waits[0].wakeup);
      RefillFrame(b2, waits[0].wakeup);
      assert forall k :: 0 <= k < |waits[1..]| ==> waits[1..][k] == waits[k + 1];
      Starves(Refill(b2, waits[0].wakeup), bytes, waits[0].wakeup, waits[1..]);
    }
  }

  /**
   `acquire` of a limiter whose limit is left alone can return if and only if
   the request is grantable. If it is, one undisturbed wait is enough; if it
   is not, no number of waits is.
   */
  lemma AcquireReturnsIff(b: Bucket, bytes: nat, now: real)
    requires InRange(b) && b.enabled && bytes > 0 && b.lastRefill <= now
    ensures (exists waits :: LimitLeftAlone(waits) && !AcquireRounds(b, bytes, now, waits).1.Waiting?) <==>
            Grantable(b, bytes)
  {
    hide WaitMicros, AcquireRound, AcquireRounds;
    if Grantable(b, bytes) {
      var outcome := AcquireRound(b, bytes, now).1;
      var wakeup := now + if outcome.Waiting? then outcome.micros as real / 1000000.0 else 0.0;
      AcquireDoneAfterOneSleep(b, bytes, now, wakeup);
      assert LimitLeftAlone([Wait([], wakeup)]);
    } else {
      forall waits | LimitLeftAlone(waits)
        ensures AcquireRounds(b, bytes, now, waits).1.Waiting?
      {
        Starves(b, bytes, now, waits);
      }
    }
  }

  /** A case: two bytes from a limiter of one byte per second. */
  lemma TwoBytesStarve(now: real, waits: seq<Wait>)
    requires LimitLeftAlone(waits)
    ensures AcquireRounds(Init(1, 0.0), 2, now, waits).1.Waiting?
  {
    Starves(Init(1, 0.0), 2, now, waits);
  }

  lemma RefillTwice(b: Bucket, now: real)
    ensures Refill(Refill(b, now), now) == Refill(b, now)
  {
  }
}
