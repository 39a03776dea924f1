/**
 * Time handling of the tracklist reader: the `!DATE` argument turned into an
 * epoch timestamp, and the advance of the timestamp cursor after each track.
 */
module ReaderTime {
  import opened Common

  /** A wall-clock date and time in the reader's local time zone. */
  datatype DateTime = DateTime(year: nat, month: nat, day: nat, hour: nat, minute: nat, second: nat)

  /**
   * What the reader takes from its surroundings: the current year (the default
   * year), the calendar conversion of a local date-time to epoch seconds (`None`
   * for a date the calendar rejects) and `float()` on a text, for finite values
   * (`None` where Python raises ValueError; infinities and NaN are not represented).
   */
  datatype Env = Env(currentYear: nat, localEpoch: DateTime -> Option<int>, parseFloat: string -> Option<real>)

  /** The exceptions `__get_timestamp` can raise. */
  datatype TimeError =
    | NotADate      // `re.match` found nothing: AttributeError on `None.groups()`
    | BadValue      // too few parts to unpack, or `int('')`: ValueError
    | InvalidDate   // the calendar refuses the date

  predicate IsDateChar(c: char) { IsDigit(c) || c == '/' }

  predicate IsTimeChar(c: char) { IsDigit(c) || c == ':' }

  function DateRun(s: string): (n: nat)
    ensures n <= |s| && (forall i :: 0 <= i < n ==> IsDateChar(s[i])) && (n < |s| ==> !IsDateChar(s[n]))
  {
    if s == [] || !IsDateChar(s[0]) then 0 else 1 + DateRun(s[1..])
  }

  function TimeRun(s: string): (n: nat)
    ensures n <= |s| && (forall i :: 0 <= i < n ==> IsTimeChar(s[i])) && (n < |s| ==> !IsTimeChar(s[n]))
  {
    if s == [] || !IsTimeChar(s[0]) then 0 else 1 + TimeRun(s[1..])
  }

  predicate AllDate(s: string) { forall i :: 0 <= i < |s| ==> IsDateChar(s[i]) }

  predicate AllTime(s: string) { forall i :: 0 <= i < |s| ==> IsTimeChar(s[i]) }

  /**
   * `re.match(r'([0-9\/]+) ([0-9:]+)', s).groups()`: the pattern is anchored at
   * the start only, and both groups take the longest run they can.
   */
  function MatchDate(s: string): (r: Option<(string, string)>)
    ensures r.Some? ==> var (d, t) := r.value;
      d != [] && AllDate(d) && t != [] && AllTime(t)
      && |d| + 1 + |t| <= |s| && s[..|d| + 1 + |t|] == d + " " + t
      && (|d| + 1 + |t| < |s| ==> !IsTimeChar(s[|d| + 1 + |t|]))
  {
    var n := DateRun(s);
    if n == 0 || n == |s| || s[n] != ' ' then None
    else
      var rest := s[n + 1..];
      var m := TimeRun(rest);
      if m == 0 then None
      else
        assert s[..n + 1 + m] == s[..n] + " " + rest[..m];
        Some((s[..n], rest[..m]))
  }

  lemma {:induction false} DateRunOf(d: string, t: string)
    requires AllDate(d) && (t == [] || !IsDateChar(t[0]))
    ensures DateRun(d + t) == |d|
  {
    if d != [] {
      assert (d + t)[1..] == d[1..] + t;
      DateRunOf(d[1..], t);
    }
  }

  lemma {:induction false} TimeRunOf(d: string, t: string)
    requires AllTime(d) && (t == [] || !IsTimeChar(t[0]))
    ensures TimeRun(d + t) == |d|
  {
    if d != [] {
      assert (d + t)[1..] == d[1..] + t;
      TimeRunOf(d[1..], t);
    }
  }

  /** The groups are found exactly as written, whatever follows the time. */
  lemma MatchDateOf(d: string, t: string, tail: string)
    requires d != [] && AllDate(d) && t != [] && AllTime(t)
    requires tail == [] || !IsTimeChar(tail[0])
    ensures MatchDate(d + " " + t + tail) == Some((d, t))
  {
    var s := d + " " + t + tail;
    assert s == d + (" " + t + tail);
    DateRunOf(d, " " + t + tail);
    assert s[|d| + 1..] == t + tail;
    TimeRunOf(t, tail);
    assert s[..|d|] == d;
    assert (t + tail)[..|t|] == t;
  }

  /** `int(s)` on a run of digits: `int('')` raises ValueError. */
  function ParseField(s: string): Result<nat, TimeError>
  {
    if s != [] && AllDigits(s) then Ok(ParseNat(s)) else Err(BadValue)
  }

  /** `__get_timestamp(dt)`. */
  function GetTimestamp(env: Env, dt: string): (r: Result<int, TimeError>)
    ensures MatchDate(dt).None? ==> r == Err(NotADate)
  {
    match MatchDate(dt)
    case None => Err(NotADate)
    case Some((d, t)) => FromGroups(env, d, t)
  }

  /** The date group padded with the current year and the time group padded with second 0, then unpacked. */
  function FromGroups(env: Env, d: string, t: string): Result<int, TimeError>
  {
    var ds := Split(d + "/" + NatToString(env.currentYear), '/');
    var ts := Split(t + ":00", ':');
    if |ds| < 3 || |ts| < 3 then Err(BadValue) else ToEpoch(env, ds[2], ds[0], ds[1], ts[0], ts[1], ts[2])
  }

  /** `local(int(year), int(month), int(day), hour=int(hour), ...)` then `int(....timestamp())`. */
  function ToEpoch(env: Env, year: string, month: string, day: string, hour: string, minute: string, second: string)
    : Result<int, TimeError>
  {
    var y :- ParseField(year);
    var mo :- ParseField(month);
    var d :- ParseField(day);
    var h :- ParseField(hour);
    var mi :- ParseField(minute);
    var s :- ParseField(second);
    Converted(env, DateTime(y, mo, d, h, mi, s))
  }

  /** The result of converting `dt` with the calendar. */
  function Converted(env: Env, dt: DateTime): Result<int, TimeError>
  {
    if env.localEpoch(dt).Some? then Ok(env.localEpoch(dt).value) else Err(InvalidDate)
  }

  predicate Number(s: string) { s != [] && AllDigits(s) }

  /** Fields that are all digits reach the calendar with their decimal values. */
  lemma ToEpochOfNumbers(env: Env, y: string, m: string, d: string, h: string, mi: string, sec: string)
    requires Number(y) && Number(m) && Number(d) && Number(h) && Number(mi) && Number(sec)
    ensures ToEpoch(env, y, m, d, h, mi, sec)
      == Converted(env, DateTime(ParseNat(y), ParseNat(m), ParseNat(d), ParseNat(h), ParseNat(mi), ParseNat(sec)))
  {
  }

  lemma ThreeFields(a: string, b: string, c: string, sep: char)
    requires sep !in a && sep !in b && sep !in c
    ensures Split(a + [sep] + b + [sep] + c, sep) == [a, b, c]
  {
    SplitAtFirst(a, sep, b + [sep] + c);
    assert a + [sep] + b + [sep] + c == a + [sep] + (b + [sep] + c);
    SplitAtFirst(b, sep, c);
    SplitNoSeparator(c, sep);
  }

  lemma DigitsHaveNoSeparator(s: string)
    requires AllDigits(s)
    ensures '/' !in s && ':' !in s
  {
    assert forall i :: 0 <= i < |s| ==> s[i] != '/' && s[i] != ':';
  }

  lemma NumberIsGroup(s: string)
    requires Number(s)
    ensures AllDate(s) && AllTime(s)
  {
  }

  lemma DateGroup(a: string, b: string)
    requires a != [] && AllDate(a) && Number(b)
    ensures AllDate(a + "/" + b) && a + "/" + b != []
  {
    var g := a + "/" + b;
    forall i | 0 <= i < |g| ensures IsDateChar(g[i]) {
      if i < |a| { assert g[i] == a[i]; } else if i > |a| { assert g[i] == b[i - |a| - 1]; }
    }
  }

  lemma TimeGroup(a: string, b: string)
    requires a != [] && AllTime(a) && Number(b)
    ensures AllTime(a + ":" + b) && a + ":" + b != []
  {
    var g := a + ":" + b;
    forall i | 0 <= i < |g| ensures IsTimeChar(g[i]) {
      if i < |a| { assert g[i] == a[i]; } else if i > |a| { assert g[i] == b[i - |a| - 1]; }
    }
  }

  lemma DoubleZero()
    ensures Number("00") && ParseNat("00") == 0
  {
    assert "00"[..1] == "0";
    assert "0"[..0] == "";
  }

  /** `M/D H:MM` takes the current year and second 0, whatever follows the time. */
  lemma GetTimestampDefaults(env: Env, m: string, d: string, h: string, mi: string, tail: string)
    requires Number(m) && Number(d) && Number(h) && Number(mi)
    requires tail == [] || !IsTimeChar(tail[0])
    ensures GetTimestamp(env, m + "/" + d + " " + h + ":" + mi + tail)
      == Converted(env, DateTime(env.currentYear, ParseNat(m), ParseNat(d), ParseNat(h), ParseNat(mi), 0))
  {
    var dg, tg := m + "/" + d, h + ":" + mi;
    assert GetTimestamp(env, m + "/" + d + " " + h + ":" + mi + tail) == FromGroups(env, dg, tg) by {
      NumberIsGroup(m);
      NumberIsGroup(h);
      DateGroup(m, d);
      TimeGroup(h, mi);
      GetTimestampOfGroups(env, dg, tg, tail);
      RegroupTime(dg + " ", h, mi, tail);
    }
    GroupsDefaults(env, m, d, h, mi);
  }

  lemma Regroup<T>(x: seq<T>, a: seq<T>, b: seq<T>, c: seq<T>, d: seq<T>, e: seq<T>)
    ensures x + a + b + c + d + e == x + (a + b + c + d + e)
  {
  }

  lemma RegroupTime(x: string, h: string, mi: string, tail: string)
    ensures x + h + ":" + mi + tail == x + (h + ":" + mi) + tail
  {
  }

  /** A date group, a space and a time group are read as those two groups. */
  lemma GetTimestampOfGroups(env: Env, d: string, t: string, tail: string)
    requires d != [] && AllDate(d) && t != [] && AllTime(t)
    requires tail == [] || !IsTimeChar(tail[0])
    ensures GetTimestamp(env, d + " " + t + tail) == FromGroups(env, d, t)
  {
    MatchDateOf(d, t, tail);
  }

  lemma GroupsDefaults(env: Env, m: string, d: string, h: string, mi: string)
    requires Number(m) && Number(d) && Number(h) && Number(mi)
    ensures FromGroups(env, m + "/" + d, h + ":" + mi)
      == Converted(env, DateTime(env.currentYear, ParseNat(m), ParseNat(d), ParseNat(h), ParseNat(mi), 0))
  {
    GroupsSplitDefaults(env, m, d, h, mi);
    DoubleZero();
    ToEpochOfNumbers(env, NatToString(env.currentYear), m, d, h, mi, "00");
    ParseNatToString(env.currentYear);
  }

  lemma GroupsSplitDefaults(env: Env, m: string, d: string, h: string, mi: string)
    requires Number(m) && Number(d) && Number(h) && Number(mi)
    ensures FromGroups(env, m + "/" + d, h + ":" + mi) == ToEpoch(env, NatToString(env.currentYear), m, d, h, mi, "00")
  {
    var y := NatToString(env.currentYear);
    var ds := Split(m + "/" + d + "/" + y, '/');
    var ts := Split(h + ":" + mi + ":00", ':');
    assert ds == [m, d, y] by {
      DigitsHaveNoSeparator(m);
      DigitsHaveNoSeparator(d);
      DigitsHaveNoSeparator(y);
      ThreeFields(m, d, y, '/');
      assert m + "/" + d + "/" + y == m + ['/'] + d + ['/'] + y;
    }
    assert ts == [h, mi, "00"] by {
      DigitsHaveNoSeparator(h);
      DigitsHaveNoSeparator(mi);
      DigitsHaveNoSeparator("00");
      ThreeFields(h, mi, "00", ':');
      assert h + ":" + mi + ":00" == h + [':'] + mi + [':'] + "00";
    }
  }

  /** `M/D/Y H:MM:SS` uses every field as written. */
  lemma GetTimestampFull(env: Env, m: string, d: string, y: string, h: string, mi: string, sec: string)
    requires Number(m) && Number(d) && Number(y) && Number(h) && Number(mi) && Number(sec)
    ensures GetTimestamp(env, m + "/" + d + "/" + y + " " + h + ":" + mi + ":" + sec) == ToEpoch(env, y, m, d, h, mi, sec)
  {
    var dg, tg := m + "/" + d + "/" + y, h + ":" + mi + ":" + sec;
    NumberIsGroup(m);
    NumberIsGroup(h);
    DateGroup(m, d);
    DateGroup(m + "/" + d, y);
    TimeGroup(h, mi);
    TimeGroup(h + ":" + mi, sec);
    GetTimestampOfGroups(env, dg, tg, []);
    var s := m + "/" + d + "/" + y + " " + h + ":" + mi + ":" + sec;
    Regroup(dg + " ", h, ":", mi, ":", sec);
    assert s + [] == s;
    GroupsSplitFull(env, m, d, y, h, mi, sec);
  }

  lemma GroupsSplitFull(env: Env, m: string, d: string, y: string, h: string, mi: string, sec: string)
    requires Number(m) && Number(d) && Number(y) && Number(h) && Number(mi) && Number(sec)
    ensures FromGroups(env, m + "/" + d + "/" + y, h + ":" + mi + ":" + sec) == ToEpoch(env, y, m, d, h, mi, sec)
  {
    var yc := NatToString(env.currentYear);
    assert Split(m + "/" + d + "/" + y + "/" + yc, '/') == [m, d, y, yc] by {
      DigitsHaveNoSeparator(m);
      DigitsHaveNoSeparator(d);
      DigitsHaveNoSeparator(y);
      DigitsHaveNoSeparator(yc);
      FourFields(m, d, y, yc, '/');
    }
    assert Split(h + ":" + mi + ":" + sec + ":00", ':') == [h, mi, sec, "00"] by {
      DigitsHaveNoSeparator(h);
      DigitsHaveNoSeparator(mi);
      DigitsHaveNoSeparator(sec);
      DigitsHaveNoSeparator("00");
      FourFields(h, mi, sec, "00", ':');
      assert h + ":" + mi + ":" + sec + ":00" == h + [':'] + mi + [':'] + sec + [':'] + "00";
    }
  }

  lemma FourFields(a: string, b: string, c: string, e: string, sep: char)
    requires sep !in a && sep !in b && sep !in c && sep !in e
    ensures Split(a + [sep] + b + [sep] + c + [sep] + e, sep) == [a, b, c, e]
  {
    SplitAtFirst(a, sep, b + [sep] + c + [sep] + e);
    ThreeFields(b, c, e, sep);
    assert a + [sep] + b + [sep] + c + [sep] + e == a + [sep] + (b + [sep] + c + [sep] + e);
  }

  /** A bare time with no date in front of it is not a date: `re.match` fails. */
  lemma BareTimeRejected(env: Env, h: string, mi: string)
    requires Number(h) && Number(mi)
    ensures GetTimestamp(env, h + ":" + mi) == Err(NotADate)
  {
    var s := h + ":" + mi;
    DigitsHaveNoSeparator(mi);
    assert forall i :: 0 <= i < |s| ==> s[i] != ' ';
  }

  // ---------------------------------------------------------------------------
  // The timestamp cursor
  // ---------------------------------------------------------------------------

  /** `int(x)` on a float: truncation toward zero. */
  function Trunc(x: real): (r: int)
    ensures 0.0 <= x ==> r as real <= x < r as real + 1.0
    ensures x < 0.0 ==> r as real - 1.0 < x <= r as real
  {
    if x >= 0.0 then x.Floor else -((-x).Floor)
  }

  /** `__add_x_minutes(ts, x)`: `x` minutes later, in seconds. */
  function AddXMinutes(ts: int, x: real): (r: real)
    ensures r - ts as real == x * 60.0
  {
    ts as real + x * 60.0
  }

  /** The cursor step after a track: `int(__add_x_minutes(ts, increment))`. */
  function Advance(ts: int, increment: real): int
  {
    Trunc(AddXMinutes(ts, increment))
  }

  /** A whole number of minutes moves the cursor by exactly that many minutes. */
  lemma AdvanceWhole(ts: int, minutes: int)
    ensures Advance(ts, minutes as real) == ts + 60 * minutes
  {
    var x := AddXMinutes(ts, minutes as real);
    assert x == (ts + 60 * minutes) as real;
  }

  /**
   * A non-negative increment never moves the cursor back, from any cursor;
   * from a non-negative time the cursor never passes the exact time.
   */
  lemma AdvanceBounds(ts: int, increment: real)
    ensures increment >= 0.0 ==> ts <= Advance(ts, increment)
    ensures AddXMinutes(ts, increment) >= 0.0 ==> Advance(ts, increment) as real <= AddXMinutes(ts, increment)
  {
  }
}
