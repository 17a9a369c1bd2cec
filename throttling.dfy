/**
 * `NotificationThrottlingService`: one rate limiter per (notifier, permits,
 * period), created on first use and kept in a map under the key
 * "name-permits-period".
 *
 * A limiter is Resilience4j's fixed-window limiter: `limitForPeriod` permits
 * per window of `period` seconds, windows counted from the limiter's
 * creation, a window change refilling the permits. Time is the parameter
 * `now` (seconds). A limiter with the default settings comes from the
 * library's registry, which keeps its own instance under the same key; the
 * entry `Registered` stands for that shared instance.
 */
module Throttling {
  import opened Text
  import opened Model

  // ---------------------------------------------------------------- Duration.toString

  /** Java's `/` on longs: truncation toward zero (for a positive divisor). */
  function JDiv(a: int, b: int): int
    requires b > 0
  {
    if a >= 0 then a / b else -((-a) / b)
  }

  /** Java's `%` on longs: the remainder takes the sign of the dividend. */
  function JRem(a: int, b: int): int
    requires b > 0
  {
    if a >= 0 then a % b else -((-a) % b)
  }

  function Segment(n: int, unit: char): string
  {
    if n != 0 then IntText(n) + [unit] else ""
  }

  /** `Duration.toString` of a whole number of seconds: "PT0S", "PT5M", "PT1H30M", "PT-5M", "PT45S". */
  function DurationText(seconds: int): string
  {
    if seconds == 0 then "PT0S"
    else
      var head := "PT" + Segment(JDiv(seconds, 3600), 'H') + Segment(JDiv(JRem(seconds, 3600), 60), 'M');
      var secs := JRem(seconds, 60);
      if secs == 0 && |head| > 2 then head else head + IntText(secs) + "S"
  }

  /** The number of leading decimal digits of `t`. */
  function LeadingDigits(t: string): (k: nat)
    ensures k <= |t| && AllDigits(t[..k])
    ensures k < |t| ==> !IsDigit(t[k])
  {
    if t == [] || !IsDigit(t[0]) then 0
    else
      var k := 1 + LeadingDigits(t[1..]);
      assert t[..k] == [t[0]] + t[1..][..k - 1];
      k
  }

  function UnitSeconds(n: int, unit: char): int
  {
    if unit == 'H' then 3600 * n else if unit == 'M' then 60 * n else if unit == 'S' then n else 0
  }

  /** Reads a run of "<digits><unit>" groups back to seconds. */
  function ReadUnits(t: string): int
    decreases |t|
  {
    var k := LeadingDigits(t);
    if k == |t| then 0 else UnitSeconds(DigitsValue(t[..k]), t[k]) + ReadUnits(t[k + 1..])
  }

  /** The number of seconds a non-negative duration text stands for. */
  function DurationSeconds(text: string): int
  {
    if |text| >= 2 then ReadUnits(text[2..]) else 0
  }

  /** A leading digit adds one to the run of digits after it. */
  lemma LeadingDigitsStep(t: string)
    requires t != [] && IsDigit(t[0])
    ensures LeadingDigits(t) == 1 + LeadingDigits(t[1..])
  {
  }

  lemma {:induction false} LeadingDigitsOf(digits: string, rest: string)
    requires AllDigits(digits)
    requires rest != [] && !IsDigit(rest[0])
    ensures LeadingDigits(digits + rest) == |digits|
    decreases |digits|
  {
    if digits != [] {
      var t := digits + rest;
      assert t[0] == digits[0] && IsDigit(digits[0]);
      LeadingDigitsStep(t);
      assert t[1..] == digits[1..] + rest;
      assert AllDigits(digits[1..]) by {
        forall i | 0 <= i < |digits[1..]|
          ensures IsDigit(digits[1..][i])
        {
          assert digits[1..][i] == digits[i + 1];
        }
      }
      LeadingDigitsOf(digits[1..], rest);
    } else {
      assert digits + rest == rest;
    }
  }

  lemma ReadSegment(n: nat, unit: char, rest: string)
    requires unit == 'H' || unit == 'M' || unit == 'S'
    ensures ReadUnits(NatText(n) + [unit] + rest) == UnitSeconds(n, unit) + ReadUnits(rest)
  {
    var t := NatText(n) + [unit] + rest;
    LeadingDigitsOf(NatText(n), [unit] + rest);
    assert t == NatText(n) + ([unit] + rest);
    var k := |NatText(n)|;
    assert t[..k] == NatText(n);
    assert t[k] == unit;
    assert t[k + 1..] == rest;
    NatTextValue(n);
  }

  lemma ReadOptionalSegment(n: nat, unit: char, rest: string)
    requires unit == 'H' || unit == 'M' || unit == 'S'
    ensures ReadUnits(Segment(n, unit) + rest) == UnitSeconds(n, unit) + ReadUnits(rest)
  {
    if n != 0 {
      ReadSegment(n, unit, rest);
    } else {
      assert Segment(n, unit) + rest == rest;
    }
  }

  /** Hours, minutes and seconds add back up to the duration. */
  lemma HoursMinutesSeconds(seconds: nat)
    ensures 3600 * (seconds / 3600) + 60 * ((seconds % 3600) / 60) + seconds % 60 == seconds
  {
    var h := seconds / 3600;
    var r := seconds % 3600;
    var q := r / 60;
    var s := r % 60;
    assert seconds == 3600 * h + r;
    assert r == 60 * q + s;
    RemainderOf(seconds, 60 * h + q, s);
  }

  /** Written as 60 q + s with s below 60, a number leaves remainder s. */
  lemma RemainderOf(n: nat, q: nat, s: nat)
    requires n == 60 * q + s && s < 60
    ensures n % 60 == s
  {
  }

  /** The text of a positive duration, part by part. */
  lemma DurationTextParts(seconds: nat)
    requires seconds > 0
    ensures var head := "PT" + Segment(seconds / 3600, 'H') + Segment((seconds % 3600) / 60, 'M');
            DurationText(seconds) == if seconds % 60 == 0 && |head| > 2 then head else head + NatText(seconds % 60) + "S"
  {
    assert JDiv(seconds, 3600) == seconds / 3600;
    assert JRem(seconds, 3600) == seconds % 3600;
    assert JDiv(seconds % 3600, 60) == (seconds % 3600) / 60;
    assert JRem(seconds, 60) == seconds % 60;
  }

  lemma ReadHoursMinutes(h: nat, m: nat, tail: string)
    ensures ReadUnits(Segment(h, 'H') + (Segment(m, 'M') + tail)) == 3600 * h + 60 * m + ReadUnits(tail)
  {
    ReadOptionalSegment(m, 'M', tail);
    ReadOptionalSegment(h, 'H', Segment(m, 'M') + tail);
  }

  /** `Duration.parse` skips the leading "PT". */
  lemma StripPrefix(h: nat, m: nat, tail: string)
    ensures DurationSeconds("PT" + Segment(h, 'H') + Segment(m, 'M') + tail)
         == ReadUnits(Segment(h, 'H') + (Segment(m, 'M') + tail))
  {
    assert ("PT" + Segment(h, 'H') + Segment(m, 'M') + tail)[2..] == Segment(h, 'H') + (Segment(m, 'M') + tail);
  }

  lemma ReadSeconds(secs: nat)
    ensures ReadUnits(NatText(secs) + "S") == secs
  {
    assert NatText(secs) + "S" == NatText(secs) + ['S'] + "";
    ReadSegment(secs, 'S', "");
    assert ReadUnits("") == 0;
  }

  lemma ReadWithoutSeconds(h: nat, m: nat)
    ensures DurationSeconds("PT" + Segment(h, 'H') + Segment(m, 'M')) == 3600 * h + 60 * m
  {
    assert "PT" + Segment(h, 'H') + Segment(m, 'M') == "PT" + Segment(h, 'H') + Segment(m, 'M') + "";
    StripPrefix(h, m, "");
    assert ReadUnits("") == 0;
    ReadHoursMinutes(h, m, "");
  }

  lemma ReadWithSeconds(h: nat, m: nat, secs: nat)
    ensures DurationSeconds("PT" + Segment(h, 'H') + Segment(m, 'M') + NatText(secs) + "S") == 3600 * h + 60 * m + secs
  {
    var tail := NatText(secs) + "S";
    assert "PT" + Segment(h, 'H') + Segment(m, 'M') + NatText(secs) + "S" == "PT" + Segment(h, 'H') + Segment(m, 'M') + tail;
    StripPrefix(h, m, tail);
    ReadHoursMinutes(h, m, tail);
    ReadSeconds(secs);
  }

  /** `Duration.toString` loses nothing on non-negative durations: the text reads back to the same seconds. */
  lemma DurationTextRoundTrip(seconds: nat)
    ensures DurationSeconds(DurationText(seconds)) == seconds
  {
    if seconds == 0 {
      assert DurationText(0)[2..] == NatText(0) + ['S'] + "";
      ReadSegment(0, 'S', "");
    } else {
      HoursMinutesSeconds(seconds);
      DurationTextParts(seconds);
      ReadWithoutSeconds(seconds / 3600, (seconds % 3600) / 60);
      ReadWithSeconds(seconds / 3600, (seconds % 3600) / 60, seconds % 60);
    }
  }

  lemma DurationTextInjective(a: nat, b: nat)
    requires DurationText(a) == DurationText(b)
    ensures a == b
  {
    DurationTextRoundTrip(a);
    DurationTextRoundTrip(b);
  }

  lemma DashFreeDurationText(seconds: nat)
    ensures '-' !in DurationText(seconds)
  {
    if seconds != 0 {
      var h := Segment(seconds / 3600, 'H');
      var m := Segment((seconds % 3600) / 60, 'M');
      assert '-' !in h && '-' !in m && '-' !in NatText(seconds % 60);
    }
  }

  // ---------------------------------------------------------------- the limiter key

  /** `String.format("%s-%d-%s", notifierName, permitsPerPeriod, period)`. */
  function LimiterKey(name: string, permits: int, period: int): string
  {
    name + "-" + IntText(permits) + "-" + DurationText(period)
  }

  /** The position of the last '-' in `s`. */
  function LastDash(s: string): (r: Option<nat>)
    ensures r.None? ==> '-' !in s
    ensures r.Some? ==> r.value < |s| && s[r.value] == '-' && '-' !in s[r.value + 1..]
  {
    if s == [] then None
    else if s[|s| - 1] == '-' then Some(|s| - 1)
    else
      var r := LastDash(s[..|s| - 1]);
      assert r.Some? ==> s[r.value + 1..] == s[..|s| - 1][r.value + 1..] + [s[|s| - 1]];
      r
  }

  /** A text that does not end in '-' has its last '-' where its prefix has it. */
  lemma LastDashSkip(s: string)
    requires s != [] && s[|s| - 1] != '-'
    ensures LastDash(s) == LastDash(s[..|s| - 1])
  {
  }

  lemma LastDashOf(front: string, back: string)
    requires '-' !in back
    ensures LastDash(front + "-" + back) == Some(|front|)
    decreases |back|
  {
    var s := front + "-" + back;
    if back != [] {
      var init := back[..|back| - 1];
      assert s[|s| - 1] == back[|back| - 1] && back[|back| - 1] in back;
      assert s[..|s| - 1] == front + "-" + init;
      assert '-' !in init by {
        assert forall c :: c in init ==> c in back;
      }
      LastDashSkip(s);
      LastDashOf(front, init);
    } else {
      assert s[|s| - 1] == '-';
    }
  }

  /** Reads a key back into its (notifier, permits text, period text) parts. */
  function SplitKey(key: string): Option<(string, string, string)>
  {
    match LastDash(key)
    case None => None
    case Some(i) =>
      match LastDash(key[..i])
      case None => None
      case Some(j) => Some((key[..j], key[j + 1..i], key[i + 1..]))
  }

  /** The notifier a key belongs to. */
  function KeyNotifier(key: string): Option<string>
  {
    match SplitKey(key)
    case None => None
    case Some(parts) => Some(parts.0)
  }

  lemma SplitOf(name: string, p: string, d: string)
    requires '-' !in p && '-' !in d
    ensures SplitKey(name + "-" + p + "-" + d) == Some((name, p, d))
  {
    var key := name + "-" + p + "-" + d;
    assert key == (name + "-" + p) + "-" + d;
    LastDashOf(name + "-" + p, d);
    var i := |name + "-" + p|;
    assert key[..i] == name + "-" + p;
    assert LastDash(key) == Some(i);
    LastDashOf(name, p);
    assert LastDash(key[..i]) == Some(|name|);
    assert key[..|name|] == name;
    assert key[|name| + 1..i] == p;
    assert key[i + 1..] == d;
    assert SplitKey(key) == Some((key[..|name|], key[|name| + 1..i], key[i + 1..]));
  }

  lemma SplitLimiterKey(name: string, permits: nat, period: nat)
    ensures SplitKey(LimiterKey(name, permits, period)) == Some((name, NatText(permits), DurationText(period)))
  {
    var p := NatText(permits);
    DashFreeDurationText(period);
    assert '-' !in p by {
      assert forall i :: 0 <= i < |p| ==> IsDigit(p[i]);
    }
    SplitOf(name, p, DurationText(period));
  }

  /**
   * The same (name, permits, period) always finds the same key, and a key
   * names one (name, permits, period) only: changing the notifier, the
   * permits or the period gives a different limiter.
   */
  lemma LimiterKeyInjective(name1: string, permits1: nat, period1: nat, name2: string, permits2: nat, period2: nat)
    requires LimiterKey(name1, permits1, period1) == LimiterKey(name2, permits2, period2)
    ensures name1 == name2 && permits1 == permits2 && period1 == period2
  {
    SplitLimiterKey(name1, permits1, period1);
    SplitLimiterKey(name2, permits2, period2);
    NatTextInjective(permits1, permits2);
    DurationTextInjective(period1, period2);
  }

  // ---------------------------------------------------------------- one limiter

  /** A fixed-window limiter; `cycle` is the window of the last call, `permits` what is left in it. */
  datatype Limiter = Limiter(limitForPeriod: int, period: int, start: int, cycle: int, permits: int)

  /** A limiter is in its first window for a whole period after its creation. */
  lemma FirstWindow(elapsed: int, period: int)
    requires 0 <= elapsed < period
    ensures elapsed / period == 0
  {
  }

  /** The window `now` falls in, counted from the limiter's creation. */
  function CycleAt(l: Limiter, now: int): int
    requires l.period > 0
  {
    (now - l.start) / l.period
  }

  function NewLimiter(limitForPeriod: int, period: int, now: int): Limiter
  {
    Limiter(limitForPeriod, period, now, 0, limitForPeriod)
  }

  /** The limiter brought to the window of `now`: a new window starts full. */
  function Refresh(l: Limiter, now: int): (r: Limiter)
    requires l.period > 0
    ensures r.cycle == CycleAt(l, now)
    ensures r.permits == if CycleAt(l, now) == l.cycle then l.permits else l.limitForPeriod
  {
    var c := CycleAt(l, now);
    if c == l.cycle then l else l.(cycle := c, permits := l.limitForPeriod)
  }

  /** `acquirePermission`: takes a permit of the current window when one is left. */
  function Acquire(l: Limiter, now: int): (r: (Limiter, bool))
    requires l.period > 0
    ensures r.1 <==> Refresh(l, now).permits > 0
    ensures r.0 == Refresh(l, now).(permits := Refresh(l, now).permits - if r.1 then 1 else 0)
  {
    var current := Refresh(l, now);
    if current.permits > 0 then (current.(permits := current.permits - 1), true) else (current, false)
  }

  // ---------------------------------------------------------------- the limiter maps

  /** What `rateLimiters` holds under a key: a limiter of its own, or the registry's instance of that key. */
  datatype Entry = Own(limiter: Limiter) | Registered

  /** `rateLimiters`, and the registry's own cache of default-setting limiters. */
  datatype ThrottleState = ThrottleState(rateLimiters: map<string, Entry>, registry: map<string, Limiter>)

  /** The registry's default period (seconds) and permits. */
  datatype Settings = Settings(period: int, permits: int)

  /** What Resilience4j's configuration builder accepts. */
  predicate ValidSettings(period: int, permits: int)
  {
    period >= 1 && permits >= 1
  }

  datatype Decision = Allowed | Throttled | Rejected

  /** Every entry the map shares with the registry is in the registry. */
  predicate Consistent(st: ThrottleState)
  {
    forall key :: key in st.rateLimiters && st.rateLimiters[key].Registered? ==> key in st.registry
  }

  /** `rateLimiterRegistry.rateLimiter(key)`: the registry's instance, created with the defaults when missing. */
  function RegistryLimiter(registry: map<string, Limiter>, defaults: Settings, key: string, now: int): Limiter
  {
    if key in registry then registry[key] else NewLimiter(defaults.permits, defaults.period, now)
  }

  /**
   * The `computeIfAbsent` of `getRateLimiterForNotifier`: an absent key gets
   * a limiter of its own for custom settings, or the registry's one for the
   * defaults. None when the custom settings make the builder throw.
   */
  function ComputeIfAbsent(st: ThrottleState, defaults: Settings, name: string, period: int, permits: int, now: int): (r: Option<ThrottleState>)
    ensures var key := LimiterKey(name, permits, period);
      r.Some? ==> (key in r.value.rateLimiters
        && r.value.rateLimiters.Keys == st.rateLimiters.Keys + {key}
        && r.value.registry.Keys <= st.registry.Keys + {key}
        && (forall k :: k in st.rateLimiters && k != key ==> r.value.rateLimiters[k] == st.rateLimiters[k])
        && (forall k :: k in st.registry ==> k in r.value.registry && r.value.registry[k] == st.registry[k]))
    ensures var key := LimiterKey(name, permits, period);
      key in st.rateLimiters ==> r == Some(st)
    ensures r.None? <==> LimiterKey(name, permits, period) !in st.rateLimiters
                         && (period != defaults.period || permits != defaults.permits)
                         && !ValidSettings(period, permits)
  {
    var key := LimiterKey(name, permits, period);
    if key in st.rateLimiters then Some(st)
    else if period != defaults.period || permits != defaults.permits then
      if ValidSettings(period, permits) then
        Some(st.(rateLimiters := st.rateLimiters[key := Own(NewLimiter(permits, period, now))]))
      else None
    else
      Some(ThrottleState(st.rateLimiters[key := Registered],
                         st.registry[key := RegistryLimiter(st.registry, defaults, key, now)]))
  }

  /** The limiter an entry stands for. */
  function EntryLimiter(st: ThrottleState, key: string): Limiter
    requires key in st.rateLimiters
    requires st.rateLimiters[key].Registered? ==> key in st.registry
  {
    match st.rateLimiters[key]
    case Own(l) => l
    case Registered => st.registry[key]
  }

  /** A limiter whose settings the builder accepted and whose permits are within its limit. */
  predicate Sound(l: Limiter)
  {
    l.limitForPeriod >= 1 && l.period >= 1 && 0 <= l.permits <= l.limitForPeriod
  }

  predicate SoundState(st: ThrottleState)
  {
    Consistent(st)
    && (forall key :: key in st.rateLimiters && st.rateLimiters[key].Own? ==> Sound(st.rateLimiters[key].limiter))
    && (forall key :: key in st.registry ==> Sound(st.registry[key]))
  }

  /** Takes a permit from the limiter of `key`, wherever it lives. */
  function AcquireFor(st: ThrottleState, key: string, now: int): (r: (ThrottleState, bool))
    requires key in st.rateLimiters
    requires st.rateLimiters[key].Registered? ==> key in st.registry
    requires EntryLimiter(st, key).period > 0
    ensures r.1 <==> Refresh(EntryLimiter(st, key), now).permits > 0
    ensures r.0.rateLimiters.Keys == st.rateLimiters.Keys && r.0.registry.Keys == st.registry.Keys
    ensures key in r.0.rateLimiters && r.0.rateLimiters[key].Own? == st.rateLimiters[key].Own?
    ensures (r.0.rateLimiters[key].Registered? ==> key in r.0.registry)
            && EntryLimiter(r.0, key) == Acquire(EntryLimiter(st, key), now).0
    ensures forall k :: k in st.rateLimiters && k != key ==> r.0.rateLimiters[k] == st.rateLimiters[k]
    ensures forall k :: k in st.registry && k != key ==> r.0.registry[k] == st.registry[k]
  {
    var (next, allowed) := Acquire(EntryLimiter(st, key), now);
    match st.rateLimiters[key]
    case Own(_) => (st.(rateLimiters := st.rateLimiters[key := Own(next)]), allowed)
    case Registered => (st.(registry := st.registry[key := next]), allowed)
  }

  /** The three-argument `shouldSendNotification`: find or create the limiter, then take a permit. */
  function Admit(st: ThrottleState, defaults: Settings, name: string, period: int, permits: int, now: int): (r: (ThrottleState, Decision))
    requires SoundState(st) && ValidSettings(defaults.period, defaults.permits)
    ensures SoundState(r.0)
  {
    var key := LimiterKey(name, permits, period);
    match ComputeIfAbsent(st, defaults, name, period, permits, now)
    case None => (st, Rejected)
    case Some(ready) =>
      var (next, allowed) := AcquireFor(ready, key, now);
      (next, if allowed then Allowed else Throttled)
  }

  // ---------------------------------------------------------------- what the limiters promise

  /** The decisions of a series of calls for one notifier and one setting, at the given times. */
  function AdmitAll(st: ThrottleState, defaults: Settings, name: string, period: int, permits: int, times: seq<int>): (r: (ThrottleState, seq<Decision>))
    requires SoundState(st) && ValidSettings(defaults.period, defaults.permits)
    ensures SoundState(r.0) && |r.1| == |times|
    decreases |times|
  {
    if times == [] then (st, [])
    else
      var (next, d) := Admit(st, defaults, name, period, permits, times[0]);
      var (last, ds) := AdmitAll(next, defaults, name, period, permits, times[1..]);
      (last, [d] + ds)
  }

  /** A call in the current window of an existing limiter takes one of its permits when one is left. */
  lemma AdmitInWindow(st: ThrottleState, defaults: Settings, name: string, period: int, permits: int, now: int)
    requires SoundState(st) && ValidSettings(defaults.period, defaults.permits)
    requires LimiterKey(name, permits, period) in st.rateLimiters
    requires CycleAt(EntryLimiter(st, LimiterKey(name, permits, period)), now)
             == EntryLimiter(st, LimiterKey(name, permits, period)).cycle
    ensures var key := LimiterKey(name, permits, period);
      var l := EntryLimiter(st, key);
      var r := Admit(st, defaults, name, period, permits, now);
      r.1 == (if l.permits > 0 then Allowed else Throttled)
      && key in r.0.rateLimiters
      && EntryLimiter(r.0, key) == l.(permits := if l.permits > 0 then l.permits - 1 else l.permits)
  {
    assert ComputeIfAbsent(st, defaults, name, period, permits, now) == Some(st);
  }

  /** The decisions of a series of calls: the first call's, then the rest's from the state it leaves. */
  lemma AdmitAllCons(st: ThrottleState, defaults: Settings, name: string, period: int, permits: int, times: seq<int>)
    requires SoundState(st) && ValidSettings(defaults.period, defaults.permits)
    requires times != []
    ensures var step := Admit(st, defaults, name, period, permits, times[0]);
      AdmitAll(st, defaults, name, period, permits, times).1
      == [step.1] + AdmitAll(step.0, defaults, name, period, permits, times[1..]).1
  {
  }

  /** A window with `permits` left, after one call that takes a permit when there is one. */
  lemma ConsWindow(d: Decision, ds: seq<Decision>, permits: int, left: int)
    requires d == if permits > 0 then Allowed else Throttled
    requires left == if permits > 0 then permits - 1 else permits
    requires ds == seq(|ds|, i => if i < left then Allowed else Throttled)
    ensures [d] + ds == seq(|ds| + 1, i => if i < permits then Allowed else Throttled)
  {
    forall i | 0 <= i < |ds| + 1
      ensures ([d] + ds)[i] == if i < permits then Allowed else Throttled
    {
      if i > 0 {
        assert ([d] + ds)[i] == ds[i - 1];
      }
    }
  }

  /** Taking a permit keeps a limiter's window, so later calls in it stay in it. */
  lemma SameWindow(l: Limiter, l': Limiter, times: seq<int>)
    requires times != [] && l.period > 0 && l'.start == l.start && l'.period == l.period && l'.cycle == l.cycle
    requires forall t :: t in times ==> CycleAt(l, t) == l.cycle
    ensures forall t :: t in times[1..] ==> CycleAt(l', t) == l'.cycle
  {
    assert forall t :: t in times[1..] ==> t in times;
  }

  /** A limiter created at the first of a series of calls within one period keeps all of them in its first window. */
  lemma FirstWindowAll(l: Limiter, times: seq<int>)
    requires times != [] && l.period > 0 && l.start == times[0] && l.cycle == 0
    requires forall t :: t in times ==> times[0] <= t < times[0] + l.period
    ensures forall t :: t in times[1..] ==> CycleAt(l, t) == l.cycle
  {
    forall t | t in times[1..]
      ensures CycleAt(l, t) == l.cycle
    {
      assert t in times;
      FirstWindow(t - times[0], l.period);
    }
  }

  /** Of the calls that fall in the current window of an existing limiter, as many as it has permits left are allowed. */
  lemma {:induction false} WindowOfExisting(st: ThrottleState, defaults: Settings, name: string, period: int, permits: int, times: seq<int>)
    requires SoundState(st) && ValidSettings(defaults.period, defaults.permits)
    requires LimiterKey(name, permits, period) in st.rateLimiters
    requires forall t :: t in times ==> CycleAt(EntryLimiter(st, LimiterKey(name, permits, period)), t)
                                        == EntryLimiter(st, LimiterKey(name, permits, period)).cycle
    ensures AdmitAll(st, defaults, name, period, permits, times).1
         == seq(|times|, i => if i < EntryLimiter(st, LimiterKey(name, permits, period)).permits then Allowed else Throttled)
    decreases |times|
  {
    if times != [] {
      var key := LimiterKey(name, permits, period);
      assert times[0] in times;
      AdmitAllCons(st, defaults, name, period, permits, times);
      AdmitInWindow(st, defaults, name, period, permits, times[0]);
      var step := Admit(st, defaults, name, period, permits, times[0]);
      SameWindow(EntryLimiter(st, key), EntryLimiter(step.0, key), times);
      WindowOfExisting(step.0, defaults, name, period, permits, times[1..]);
      ConsWindow(step.1, AdmitAll(step.0, defaults, name, period, permits, times[1..]).1,
                 EntryLimiter(st, key).permits, EntryLimiter(step.0, key).permits);
    }
  }

  /** The first call for a new key with valid settings is allowed and leaves a limiter created at that time. */
  lemma FirstCall(st: ThrottleState, defaults: Settings, name: string, period: int, permits: int, now: int)
    requires SoundState(st) && ValidSettings(defaults.period, defaults.permits)
    requires ValidSettings(period, permits)
    requires LimiterKey(name, permits, period) !in st.rateLimiters
    requires period == defaults.period && permits == defaults.permits ==> LimiterKey(name, permits, period) !in st.registry
    ensures var next := Admit(st, defaults, name, period, permits, now);
            next.1 == Allowed && LimiterKey(name, permits, period) in next.0.rateLimiters
            && EntryLimiter(next.0, LimiterKey(name, permits, period)) == Limiter(permits, period, now, 0, permits - 1)
  {
    var key := LimiterKey(name, permits, period);
    var ready := ComputeIfAbsent(st, defaults, name, period, permits, now).value;
    assert EntryLimiter(ready, key) == NewLimiter(permits, period, now);
    FirstWindow(0, period);
  }

  /**
   * A notifier with no limiter yet, called repeatedly within one period of
   * its first call: the first `permits` calls are allowed and every later
   * one is throttled.
   */
  lemma FirstPermitsThenThrottled(st: ThrottleState, defaults: Settings, name: string, period: int, permits: int, times: seq<int>)
    requires SoundState(st) && ValidSettings(defaults.period, defaults.permits)
    requires ValidSettings(period, permits)
    requires LimiterKey(name, permits, period) !in st.rateLimiters
    requires period == defaults.period && permits == defaults.permits ==> LimiterKey(name, permits, period) !in st.registry
    requires times != [] && forall t :: t in times ==> times[0] <= t < times[0] + period
    ensures AdmitAll(st, defaults, name, period, permits, times).1
         == seq(|times|, i => if i < permits then Allowed else Throttled)
  {
    var key := LimiterKey(name, permits, period);
    var t0 := times[0];
    AdmitAllCons(st, defaults, name, period, permits, times);
    FirstCall(st, defaults, name, period, permits, t0);
    var step := Admit(st, defaults, name, period, permits, t0);
    FirstWindowAll(EntryLimiter(step.0, key), times);
    WindowOfExisting(step.0, defaults, name, period, permits, times[1..]);
    ConsWindow(step.1, AdmitAll(step.0, defaults, name, period, permits, times[1..]).1,
               permits, EntryLimiter(step.0, key).permits);
  }

  /** Once the window of a limiter has passed, the next call is allowed again. */
  lemma NextWindowAllows(st: ThrottleState, defaults: Settings, name: string, period: int, permits: int, now: int)
    requires SoundState(st) && ValidSettings(defaults.period, defaults.permits)
    requires LimiterKey(name, permits, period) in st.rateLimiters
    requires CycleAt(EntryLimiter(st, LimiterKey(name, permits, period)), now)
             != EntryLimiter(st, LimiterKey(name, permits, period)).cycle
    ensures Admit(st, defaults, name, period, permits, now).1 == Allowed
  {
    assert ComputeIfAbsent(st, defaults, name, period, permits, now) == Some(st);
  }

  /** A call for one notifier leaves the limiter of every other notifier as it was. */
  lemma OtherNotifiersUntouched(st: ThrottleState, defaults: Settings, name: string, period: nat, permits: nat,
                                other: string, otherPeriod: nat, otherPermits: nat, now: int)
    requires SoundState(st) && ValidSettings(defaults.period, defaults.permits)
    requires name != other
    ensures var key := LimiterKey(other, otherPermits, otherPeriod);
            var next := Admit(st, defaults, name, period, permits, now).0;
            (key in next.rateLimiters <==> key in st.rateLimiters)
            && (key in st.rateLimiters ==> next.rateLimiters[key] == st.rateLimiters[key])
            && (key in st.registry ==> key in next.registry && next.registry[key] == st.registry[key])
  {
    var key := LimiterKey(other, otherPermits, otherPeriod);
    if key == LimiterKey(name, permits, period) {
      LimiterKeyInjective(name, permits, period, other, otherPermits, otherPeriod);
    }
  }

  // ---------------------------------------------------------------- clearing

  /** `clearRateLimiter(notifierName)` as written: removes the entry whose key is the bare name. */
  function ClearByName(st: ThrottleState, name: string): ThrottleState
  {
    st.(rateLimiters := st.rateLimiters - {name})
  }

  /**
   * Every key `shouldSendNotification` creates is longer than the notifier's
   * name, so clearing by name keeps the notifier's limiter: once it is used
   * up for the window it still throttles.
   */
  lemma ClearByNameKeepsLimiter(st: ThrottleState, defaults: Settings, name: string, period: nat, permits: nat, now: int)
    requires SoundState(st) && ValidSettings(defaults.period, defaults.permits)
    requires LimiterKey(name, permits, period) in st.rateLimiters
    requires st.rateLimiters[LimiterKey(name, permits, period)].Own?
    requires var l := st.rateLimiters[LimiterKey(name, permits, period)].limiter;
             CycleAt(l, now) == l.cycle && l.permits == 0
    ensures LimiterKey(name, permits, period) in ClearByName(st, name).rateLimiters
    ensures Admit(ClearByName(st, name), defaults, name, period, permits, now).1 == Throttled
  {
    var key := LimiterKey(name, permits, period);
    assert |key| > |name|;
    var cleared := ClearByName(st, name);
    assert cleared.rateLimiters[key] == st.rateLimiters[key];
    assert ComputeIfAbsent(cleared, defaults, name, period, permits, now) == Some(cleared);
  }

  /** Clearing a notifier as intended: every limiter whose key belongs to it, in the map and in the registry. */
  function ClearNotifier(st: ThrottleState, name: string): (r: ThrottleState)
    ensures forall k :: k in r.rateLimiters <==> k in st.rateLimiters && KeyNotifier(k) != Some(name)
    ensures forall k :: k in r.registry <==> k in st.registry && KeyNotifier(k) != Some(name)
  {
    ThrottleState(map k | k in st.rateLimiters && KeyNotifier(k) != Some(name) :: st.rateLimiters[k],
                  map k | k in st.registry && KeyNotifier(k) != Some(name) :: st.registry[k])
  }

  /** After a notifier is cleared as intended, its next notification is allowed, whatever its settings. */
  lemma ClearNotifierResets(st: ThrottleState, defaults: Settings, name: string, period: nat, permits: nat, now: int)
    requires SoundState(st) && ValidSettings(defaults.period, defaults.permits)
    requires ValidSettings(period, permits)
    ensures SoundState(ClearNotifier(st, name))
    ensures Admit(ClearNotifier(st, name), defaults, name, period, permits, now).1 == Allowed
  {
    var key := LimiterKey(name, permits, period);
    SplitLimiterKey(name, permits, period);
    var cleared := ClearNotifier(st, name);
    assert key !in cleared.rateLimiters && key !in cleared.registry;
    var ready := ComputeIfAbsent(cleared, defaults, name, period, permits, now).value;
    assert EntryLimiter(ready, key) == NewLimiter(permits, period, now);
    FirstWindow(0, period);
  }

  /** `clearAllRateLimiters`: empties the map; the registry keeps its instances. */
  function ClearAll(st: ThrottleState): ThrottleState
  {
    st.(rateLimiters := map[])
  }

  /**
   * A default-setting limiter outlives `clearAllRateLimiters`: the next call
   * finds the registry's instance again, with its permits as they were.
   */
  lemma ClearAllKeepsRegistryLimiter(st: ThrottleState, defaults: Settings, name: string, now: int)
    requires SoundState(st) && ValidSettings(defaults.period, defaults.permits)
    requires LimiterKey(name, defaults.permits, defaults.period) in st.registry
    requires var l := st.registry[LimiterKey(name, defaults.permits, defaults.period)];
             CycleAt(l, now) == l.cycle && l.permits == 0
    ensures Admit(ClearAll(st), defaults, name, defaults.period, defaults.permits, now).1 == Throttled
  {
    var key := LimiterKey(name, defaults.permits, defaults.period);
    var ready := ComputeIfAbsent(ClearAll(st), defaults, name, defaults.period, defaults.permits, now).value;
    assert EntryLimiter(ready, key) == st.registry[key];
  }

  /** The configuration's own period (minutes, as seconds) and permits, each falling back on its default. */
  function Effective(config: NotifierConfiguration, defaults: Settings): Settings
  {
    Settings(if config.throttlePeriodMinutes.Some? then config.throttlePeriodMinutes.value * 60 else defaults.period,
             if config.throttlePermitsPerPeriod.Some? then config.throttlePermitsPerPeriod.value else defaults.permits)
  }

  /** `shouldSendNotification(config)`: the three-argument call with the configuration's effective settings. */
  function ThrottleConfig(st: ThrottleState, defaults: Settings, config: NotifierConfiguration, now: int): (r: (ThrottleState, Decision))
    requires SoundState(st) && ValidSettings(defaults.period, defaults.permits)
    ensures SoundState(r.0)
  {
    var settings := Effective(config, defaults);
    Admit(st, defaults, config.notifier, settings.period, settings.permits, now)
  }

  /** The decisions of a series of `shouldSendNotification(config)` calls for one configuration. */
  function ThrottleAll(st: ThrottleState, defaults: Settings, config: NotifierConfiguration, times: seq<int>): (r: (ThrottleState, seq<Decision>))
    requires SoundState(st) && ValidSettings(defaults.period, defaults.permits)
    ensures SoundState(r.0) && |r.1| == |times|
    decreases |times|
  {
    if times == [] then (st, [])
    else
      var (next, d) := ThrottleConfig(st, defaults, config, times[0]);
      var (last, ds) := ThrottleAll(next, defaults, config, times[1..]);
      (last, [d] + ds)
  }

  /** Calls for a configuration are calls for its notifier with its effective settings. */
  lemma {:induction false} ThrottleAllIsAdmitAll(st: ThrottleState, defaults: Settings, config: NotifierConfiguration, times: seq<int>)
    requires SoundState(st) && ValidSettings(defaults.period, defaults.permits)
    ensures ThrottleAll(st, defaults, config, times)
         == AdmitAll(st, defaults, config.notifier, Effective(config, defaults).period, Effective(config, defaults).permits, times)
    decreases |times|
  {
    if times != [] {
      var next := ThrottleConfig(st, defaults, config, times[0]).0;
      ThrottleAllIsAdmitAll(next, defaults, config, times[1..]);
    }
  }

  /**
   * A configuration whose limiter does not exist yet, called repeatedly
   * within one period: its own permit count, or the default one when it has
   * none, is allowed, and every later call is throttled; the period is its
   * own number of minutes, or the default period when it has none.
   */
  lemma ConfigBurst(st: ThrottleState, defaults: Settings, config: NotifierConfiguration, times: seq<int>)
    requires SoundState(st) && ValidSettings(defaults.period, defaults.permits)
    requires ValidSettings(Effective(config, defaults).period, Effective(config, defaults).permits)
    requires LimiterKey(config.notifier, Effective(config, defaults).permits, Effective(config, defaults).period) !in st.rateLimiters
    requires Effective(config, defaults) == defaults ==>
             LimiterKey(config.notifier, defaults.permits, defaults.period) !in st.registry
    requires times != []
    requires forall t :: t in times ==>
      times[0] <= t < times[0] + (if config.throttlePeriodMinutes.Some? then config.throttlePeriodMinutes.value * 60 else defaults.period)
    ensures ThrottleAll(st, defaults, config, times).1
         == seq(|times|, i => if i < (if config.throttlePermitsPerPeriod.Some? then config.throttlePermitsPerPeriod.value else defaults.permits)
                              then Allowed else Throttled)
  {
    var settings := Effective(config, defaults);
    ThrottleAllIsAdmitAll(st, defaults, config, times);
    FirstPermitsThenThrottled(st, defaults, config.notifier, settings.period, settings.permits, times);
  }

  // ---------------------------------------------------------------- the service

  class NotificationThrottlingService {
    var rateLimiters: map<string, Entry>
    var registry: map<string, Limiter>
    const defaults: Settings

    function State(): ThrottleState
      reads this
    {
      ThrottleState(rateLimiters, registry)
    }

    ghost predicate Valid()
      reads this
    {
      SoundState(State()) && ValidSettings(defaults.period, defaults.permits)
    }

    /** The defaults come from the registry's default configuration, which its builder has checked. */
    constructor(registry: map<string, Limiter>, defaultPeriod: int, defaultPermits: int)
      requires ValidSettings(defaultPeriod, defaultPermits)
      requires forall key :: key in registry ==> Sound(registry[key])
      ensures Valid()
      ensures rateLimiters == map[] && this.registry == registry
      ensures defaults == Settings(defaultPeriod, defaultPermits)
    {
      rateLimiters := map[];
      this.registry := registry;
      defaults := Settings(defaultPeriod, defaultPermits);
    }

    /** `shouldSendNotification(config)`: the configuration's period (minutes) and permits, each falling back to its default on its own. */
    method ShouldSendNotificationFor(config: NotifierConfiguration, now: int) returns (d: Decision)
      requires Valid()
      modifies this
      ensures Valid()
      ensures (State(), d) == ThrottleConfig(old(State()), defaults, config, now)
    {
      var period := if config.throttlePeriodMinutes.Some? then config.throttlePeriodMinutes.value * 60 else defaults.period;
      var permits := if config.throttlePermitsPerPeriod.Some? then config.throttlePermitsPerPeriod.value else defaults.permits;
      d := ShouldSendNotification(config.notifier, period, permits, now);
    }

    /** `shouldSendNotification(notifierName)`: the default period and permits. */
    method ShouldSendNotificationDefault(name: string, now: int) returns (d: Decision)
      requires Valid()
      modifies this
      ensures Valid()
      ensures (State(), d) == Admit(old(State()), defaults, name, defaults.period, defaults.permits, now)
    {
      d := ShouldSendNotification(name, defaults.period, defaults.permits, now);
    }

    /** `shouldSendNotification(notifierName, period, permitsPerPeriod)`. */
    method ShouldSendNotification(name: string, period: int, permits: int, now: int) returns (d: Decision)
      requires Valid()
      modifies this
      ensures Valid()
      ensures (State(), d) == Admit(old(State()), defaults, name, period, permits, now)
    {
      var created := GetRateLimiterForNotifier(name, period, permits, now);
      if !created {
        return Rejected;
      }
      var key := LimiterKey(name, permits, period);
      var (next, allowed) := Acquire(EntryLimiter(State(), key), now);
      if rateLimiters[key].Own? {
        rateLimiters := rateLimiters[key := Own(next)];
      } else {
        registry := registry[key := next];
      }
      d := if allowed then Allowed else Throttled;
    }

    /** `getRateLimiterForNotifier`: false when the builder rejects custom settings for a new key. */
    method GetRateLimiterForNotifier(name: string, period: int, permits: int, now: int) returns (found: bool)
      requires Valid()
      modifies this
      ensures Valid()
      ensures found <==> ComputeIfAbsent(old(State()), defaults, name, period, permits, now).Some?
      ensures found ==> State() == ComputeIfAbsent(old(State()), defaults, name, period, permits, now).value
      ensures !found ==> State() == old(State())
    {
      var key := LimiterKey(name, permits, period);
      if key in rateLimiters {
        return true;
      }
      if period != defaults.period || permits != defaults.permits {
        if !ValidSettings(period, permits) {
          return false;
        }
        rateLimiters := rateLimiters[key := Own(NewLimiter(permits, period, now))];
      } else {
        var shared := RegistryLimiter(registry, defaults, key, now);
        registry := registry[key := shared];
        rateLimiters := rateLimiters[key := Registered];
      }
      found := true;
    }

    /** `clearRateLimiter(notifierName)`, as written. */
    method ClearRateLimiter(name: string)
      requires Valid()
      modifies this
      ensures Valid()
      ensures State() == ClearByName(old(State()), name)
    {
      rateLimiters := rateLimiters - {name};
    }

    /** Clearing every limiter of one notifier, as `clearRateLimiter` evidently intends. */
    method ClearNotifierLimiters(name: string)
      requires Valid()
      modifies this
      ensures Valid()
      ensures State() == ClearNotifier(old(State()), name)
    {
      var st := ClearNotifier(State(), name);
      rateLimiters := st.rateLimiters;
      registry := st.registry;
    }

    /** `clearAllRateLimiters`. */
    method ClearAllRateLimiters()
      requires Valid()
      modifies this
      ensures Valid()
      ensures State() == ClearAll(old(State()))
    {
      rateLimiters := map[];
    }
  }
}
