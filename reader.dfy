/**
 * The `.txt` tracklist reader (`Reader.__txt`): a state machine over the
 * normalised lines of the file that groups scrobbles into listening sessions.
 *
 * `!COMM` lines are ignored, `!INT x` sets the spacing between tracks in
 * minutes, `!ALB artist - album` sets (and a bare `!ALB` clears) the album
 * context, `!DATE d t` opens a new session at that time, and every other line
 * is a track `artist - title`, stamped with the cursor, which then advances.
 * A line without exactly one separator is resolved through the answers to the
 * console prompts, consumed in order.
 */
module Reader {
  import opened Common
  import opened LfmObjects
  import opened ReaderText
  import opened ReaderTime

  /** One session: its start, the end cursor after its last track (`''` while it has none), its scrobbles. */
  datatype Session = Session(start: int, end: Option<int>, tracks: seq<Scrobble>)

  /** The album context set by `!ALB`: the text before and after its first separator. */
  datatype AlbumContext = AlbumContext(artist: string, title: string)

  /**
   * The locals of `__txt`: the sessions (the dict `tracks`, keyed 0, 1, ... in
   * order, so `curr_batch` is the last index), the increment, the album context
   * and the timestamp cursor.
   */
  datatype TxtState = TxtState(sessions: seq<Session>, increment: real, album: Option<AlbumContext>, ts: int)

  /** `default_increment = 3`, no album, `curr_batch = -1`, `ts = -1`. */
  const Init := TxtState([], 3.0, None, -1)

  /** The exceptions that end a read. */
  datatype ReadError =
    | MissingArgument          // `command[1]` of `!INT` or `!DATE` does not exist: IndexError
    | NotANumber               // `float(command[1])` fails: ValueError
    | BadDate(dateError: TimeError) // `__get_timestamp` fails
    | NoAlbumSeparator         // `!ALB` text without a separator: IndexError in `split_on_dash`
    | BadTrack(trackError: ObjError) // the `Scrobble` constructor refuses the track
    | NoSession                // a track before any `!DATE`: KeyError on `tracks[-1]`
    | EndOfInput               // a prompt with no answer left: EOFError

  /** What `__txt` returns: the sessions, the `['', [], []]` of a STOP, or an exception. */
  datatype TxtResult = Sessions(sessions: seq<Session>) | Aborted | Failed(error: ReadError)

  // ---------------------------------------------------------------------------
  // Commands
  // ---------------------------------------------------------------------------

  function FirstSpace(s: string): (i: nat)
    ensures i <= |s| && (forall k :: 0 <= k < i ==> s[k] != ' ') && (i < |s| ==> s[i] == ' ')
  {
    if s == [] || s[0] == ' ' then 0 else 1 + FirstSpace(s[1..])
  }

  /** `line.split(' ', 1)`: the command word and, when there is a space, the rest of the line. */
  function SplitCommand(line: string): (r: (string, Option<string>))
    ensures ' ' !in r.0
    ensures r.1.None? ==> r.0 == line
    ensures r.1.Some? ==> line == r.0 + " " + r.1.value
  {
    var i := FirstSpace(line);
    if i == |line| then (line, None)
    else
      assert line == line[..i] + " " + line[i + 1..];
      (line[..i], Some(line[i + 1..]))
  }

  // ---------------------------------------------------------------------------
  // The separator prompts
  // ---------------------------------------------------------------------------

  /** How the prompt loop ends: with a line and its one separator, a deleted line, a STOP, or no answer left. */
  datatype Resolution = Resolved(line: string, dash: Span, rest: seq<string>) | Skipped(rest: seq<string>) | Stopped | NoInput

  /** `resp.isnumeric()`, for ASCII digits. */
  predicate IsNumeric(s: string) { s != [] && AllDigits(s) }

  /**
   * The `while len(splits) != 1` loop: with no separator the answer DELETE skips
   * the line, RETYPE reads a replacement line, STOP aborts; with several, STOP
   * aborts and an index in range picks that separator. Any other answer asks again.
   */
  function Resolve(line: string, splits: seq<Span>, answers: seq<string>): Resolution
    decreases |answers|
  {
    if |splits| == 1 then Resolved(line, splits[0], answers)
    else if answers == [] then NoInput
    else
      var resp, rest := answers[0], answers[1..];
      if |splits| == 0 then
        if Upper(resp) == "DELETE" then Skipped(rest)
        else if Upper(resp) == "RETYPE" then
          if rest == [] then NoInput else Resolve(rest[0], Dashes(rest[0]), rest[1..])
        else if Upper(resp) == "STOP" then Stopped
        else Resolve(line, splits, rest)
      else if Upper(resp) == "STOP" then Stopped
      else if IsNumeric(resp) && ParseNat(resp) < |splits| then Resolve(line, [splits[ParseNat(resp)]], rest)
      else Resolve(line, splits, rest)
  }

  predicate IsSuffix(rest: seq<string>, answers: seq<string>)
  {
    |rest| <= |answers| && rest == answers[|answers| - |rest|..]
  }

  /** The loop only consumes answers, and the separator it settles on is one `find_dashes` reported for the final line. */
  lemma {:induction false} ResolveSound(line: string, splits: seq<Span>, answers: seq<string>)
    requires forall k :: 0 <= k < |splits| ==> splits[k] in Dashes(line)
    ensures var r := Resolve(line, splits, answers);
      (r.Resolved? ==> r.dash in Dashes(r.line) && IsSuffix(r.rest, answers))
      && (r.Skipped? ==> IsSuffix(r.rest, answers) && |r.rest| < |answers|)
    decreases |answers|
  {
    if |splits| != 1 && answers != [] {
      var resp, rest := answers[0], answers[1..];
      if |splits| == 0 && Upper(resp) == "RETYPE" && rest != [] {
        ResolveSound(rest[0], Dashes(rest[0]), rest[1..]);
      } else if |splits| == 0 {
        ResolveSound(line, splits, rest);
      } else if IsNumeric(resp) && ParseNat(resp) < |splits| {
        ResolveSound(line, [splits[ParseNat(resp)]], rest);
      } else {
        ResolveSound(line, splits, rest);
      }
    }
  }

  /** DELETE, in any letter case, drops a line without a separator. */
  lemma ResolveDelete(line: string, answers: seq<string>)
    requires |answers| > 0 && Upper(answers[0]) == "DELETE"
    ensures Resolve(line, [], answers) == Skipped(answers[1..])
  {
  }

  /** A number in range picks that separator of a line with several. */
  lemma ResolveChoose(line: string, splits: seq<Span>, answers: seq<string>, n: nat)
    requires |splits| > 1 && |answers| > 0 && answers[0] == NatToString(n) && n < |splits|
    ensures Resolve(line, splits, answers) == Resolved(line, splits[n], answers[1..])
  {
    ParseNatToString(n);
    assert Upper(answers[0]) != "STOP" by { assert IsDigit(Upper(answers[0])[0]); }
  }

  // ---------------------------------------------------------------------------
  // One line
  // ---------------------------------------------------------------------------

  /** The effect of one line: the next state and the answers left, a STOP, or an exception. */
  datatype Outcome = Continue(st: TxtState, rest: seq<string>) | Abort | Fail(error: ReadError)

  /** `Scrobble(artist, track, ts, album=..., album_artist=...)` as the reader calls it. */
  function TrackRecord(artist: string, title: string, ts: int, album: Option<AlbumContext>): Result<Scrobble, ObjError>
  {
    match album
    case None => NewScrobble(ArgStr(artist), Str(title), Int(ts), ArgNone, Int(-1), NoneVal, NoneVal, Int(-1))
    case Some(c) => NewScrobble(ArgStr(artist), Str(title), Int(ts), ArgStr(c.title), Int(-1), NoneVal, Str(c.artist), Int(-1))
  }

  /** The track appended to the current session, whose end moves to the advanced cursor. */
  function AddTrack(st: TxtState, rec: Scrobble): TxtState
    requires |st.sessions| > 0
  {
    var last := |st.sessions| - 1;
    var s := st.sessions[last];
    var ts := Advance(st.ts, st.increment);
    st.(sessions := st.sessions[last := Session(s.start, Some(ts), s.tracks + [rec])], ts := ts)
  }

  /** One iteration of the `for line in readline(tracklist)` loop. */
  function Step(env: Env, st: TxtState, line: string, answers: seq<string>): Outcome
  {
    var (command, arg) := SplitCommand(line);
    if command == "!COMM" then Continue(st, answers)
    else if command == "!INT" then
      if arg.None? then Fail(MissingArgument)
      else if env.parseFloat(arg.value).None? then Fail(NotANumber)
      else Continue(st.(increment := env.parseFloat(arg.value).value), answers)
    else if command == "!ALB" then
      if arg.None? || arg.value == "" then Continue(st.(album := None), answers)
      else
        match SplitOnDash(arg.value, Dashes(arg.value), 0)
        case None => Fail(NoAlbumSeparator)
        case Some((artist, title)) => Continue(st.(album := Some(AlbumContext(artist, title))), answers)
    else if command == "!DATE" then
      if arg.None? then Fail(MissingArgument)
      else
        match GetTimestamp(env, arg.value)
        case Err(e) => Fail(BadDate(e))
        case Ok(ts) => Continue(st.(sessions := st.sessions + [Session(ts, None, [])], ts := ts), answers)
    else
      match Resolve(line, Dashes(line), answers)
      case Stopped => Abort
      case NoInput => Fail(EndOfInput)
      case Skipped(rest) => Continue(st, rest)
      case Resolved(l, x, rest) =>
        match TrackRecord(Prefix(l, x.start), Suffix(l, x.end), st.ts, st.album)
        case Err(e) => Fail(BadTrack(e))
        case Ok(rec) => if |st.sessions| == 0 then Fail(NoSession) else Continue(AddTrack(st, rec), rest)
  }

  /** The loop over all lines; a STOP or an exception ends it at once. */
  function Run(env: Env, st: TxtState, lines: seq<string>, answers: seq<string>): TxtResult
    decreases |lines|
  {
    if lines == [] then Sessions(st.sessions)
    else
      match Step(env, st, lines[0], answers)
      case Abort => Aborted
      case Fail(e) => Failed(e)
      case Continue(next, rest) => Run(env, next, lines[1..], rest)
  }

  /** `Reader(fname).read()` on a `.txt` file with these raw lines and these console answers. */
  function Txt(env: Env, file: seq<string>, answers: seq<string>): TxtResult
  {
    Run(env, Init, Readline(file), answers)
  }

  // ---------------------------------------------------------------------------
  // Properties of one line
  // ---------------------------------------------------------------------------

  /** The four directive words; any other first word makes the line a track. */
  predicate IsDirective(w: string) { w == "!COMM" || w == "!INT" || w == "!ALB" || w == "!DATE" }

  /** A word without spaces, alone or followed by a space and text, splits into exactly that word and text. */
  lemma CommandOf(word: string, text: string)
    requires ' ' !in word
    ensures SplitCommand(word) == (word, None)
    ensures SplitCommand(word + " " + text) == (word, Some(text))
  {
    var line := word + " " + text;
    assert line[|word|] == ' ';
    assert forall k :: 0 <= k < |word| ==> word[k] != ' ' && line[k] == word[k];
    var i := FirstSpace(line);
    assert line[..i] == word && line[i + 1..] == text;
  }

  /** `!COMM` lines change nothing and consume no answer. */
  lemma StepComment(env: Env, st: TxtState, line: string, answers: seq<string>)
    requires SplitCommand(line).0 == "!COMM"
    ensures Step(env, st, line, answers) == Continue(st, answers)
  {
  }

  /** `!INT x` sets the spacing to `float(x)` and nothing else; without a number it fails. */
  lemma StepInterval(env: Env, st: TxtState, line: string, answers: seq<string>)
    requires SplitCommand(line).0 == "!INT"
    ensures var (_, arg) := SplitCommand(line);
      && (arg.None? ==> Step(env, st, line, answers) == Fail(MissingArgument))
      && (arg.Some? && env.parseFloat(arg.value).None? ==> Step(env, st, line, answers) == Fail(NotANumber))
      && (arg.Some? && env.parseFloat(arg.value).Some? ==>
            Step(env, st, line, answers) == Continue(TxtState(st.sessions, env.parseFloat(arg.value).value, st.album, st.ts), answers))
  {
  }

  /** A bare `!ALB` clears the album context and nothing else. */
  lemma StepAlbumClear(env: Env, st: TxtState, line: string, answers: seq<string>)
    requires SplitCommand(line) == ("!ALB", None) || SplitCommand(line) == ("!ALB", Some(""))
    ensures Step(env, st, line, answers) == Continue(TxtState(st.sessions, st.increment, None, st.ts), answers)
  {
  }

  /**
   * `!ALB artist - album` splits at the first separator of the text: the album
   * artist is what precedes it, the album what follows; a text without a
   * separator fails.
   */
  lemma StepAlbumSet(env: Env, st: TxtState, line: string, text: string, answers: seq<string>)
    requires SplitCommand(line) == ("!ALB", Some(text)) && text != ""
    ensures Dashes(text) == [] ==> Step(env, st, line, answers) == Fail(NoAlbumSeparator)
    ensures Dashes(text) != [] ==>
      var x := Dashes(text)[0];
      && (forall y :: y in Dashes(text) ==> x.start <= y.start)
      && x.start <= x.end <= |text|
      && text[..x.start] + text[x.start..x.end] + text[x.end..] == text
      && text[x.start..x.end] in Separators
      && Step(env, st, line, answers)
         == Continue(TxtState(st.sessions, st.increment, Some(AlbumContext(text[..x.start], text[x.end..])), st.ts), answers)
  {
    if Dashes(text) != [] {
      var x := Dashes(text)[0];
      SplitOnDashReconstructs(text, x);
      FirstDashIsLeast(text);
    }
  }

  /** The first span `find_dashes` reports starts no later than any other. */
  lemma FirstDashIsLeast(s: string)
    requires Dashes(s) != []
    ensures forall y :: y in Dashes(s) ==> Dashes(s)[0].start <= y.start
  {
    var r := Dashes(s);
    DashesStrictlyIncreasing(s);
    forall k | 0 <= k < |r|
      ensures r[0].start <= r[k].start
    {
      StartsIncrease(r, k);
    }
  }

  lemma {:induction false} StartsIncrease(r: seq<Span>, k: nat)
    requires k < |r|
    requires forall j :: 0 <= j < |r| - 1 ==> r[j].start < r[j + 1].start
    ensures r[0].start <= r[k].start
  {
    if k > 0 {
      StartsIncrease(r, k - 1);
    }
  }

  /** `!DATE` without a token fails. */
  lemma StepDate(env: Env, st: TxtState, line: string, answers: seq<string>)
    requires SplitCommand(line) == ("!DATE", None)
    ensures Step(env, st, line, answers) == Fail(MissingArgument)
  {
  }

  /**
   * `!DATE d t` sets the cursor to the parsed time and opens a new, empty
   * session starting there, one index past the last; earlier sessions are kept.
   */
  lemma StepDateOpens(env: Env, st: TxtState, line: string, text: string, answers: seq<string>)
    requires SplitCommand(line) == ("!DATE", Some(text))
    ensures GetTimestamp(env, text).Err? ==> Step(env, st, line, answers) == Fail(BadDate(GetTimestamp(env, text).error))
    ensures GetTimestamp(env, text).Ok? ==>
      var t := GetTimestamp(env, text).value;
      var o := Step(env, st, line, answers);
      && o == Continue(TxtState(st.sessions + [Session(t, None, [])], st.increment, st.album, t), answers)
      && |o.st.sessions| == |st.sessions| + 1 && o.st.sessions[..|st.sessions|] == st.sessions
  {
    if GetTimestamp(env, text).Ok? {
      var t := GetTimestamp(env, text).value;
      assert (st.sessions + [Session(t, None, [])])[..|st.sessions|] == st.sessions;
    }
  }

  /** The record of a track with non-empty artist and title: stamped with the cursor, with an album exactly while the context is set. */
  lemma TrackRecordShape(artist: string, title: string, ts: int, album: Option<AlbumContext>)
    requires artist != "" && title != ""
    requires album.Some? ==> album.value.artist != ""
    ensures TrackRecord(artist, title, ts, album) == Ok(Scrobble(LfmObj(Str(title), NoneVal, "name", ""), "",
      Some(NewArtist(Str(artist), NoneVal)),
      if album.None? then None else Some(NewAlbum(Str(album.value.title), NoneVal, Str(album.value.artist))),
      Int(ts), Int(-1), Int(-1)))
  {
    if album.Some? {
      NewScrobbleWithAlbum(artist, title, ts, album.value.title, album.value.artist);
    }
  }

  /**
   * A track line with exactly one separator asks nothing: it is split there,
   * stamped with the cursor and appended to the current session, whose end
   * and the cursor both move to the advanced time; without a session it fails.
   */
  lemma StepTrack(env: Env, st: TxtState, line: string, answers: seq<string>)
    requires NormalForm(line) && !IsDirective(SplitCommand(line).0) && |Dashes(line)| == 1
    requires st.album.Some? ==> st.album.value.artist != ""
    ensures var x, o := Dashes(line)[0], Step(env, st, line, answers);
      && x.start <= x.end <= |line|
      && line[..x.start] + line[x.start..x.end] + line[x.end..] == line
      && (st.sessions == [] ==> o == Fail(NoSession))
      && (st.sessions != [] ==>
           var last := |st.sessions| - 1;
           var s := st.sessions[last];
           var rec := TrackRecord(line[..x.start], line[x.end..], st.ts, st.album);
           && rec.Ok? && rec.value.timestamp == Int(st.ts)
           && rec.value.artist == Some(NewArtist(Str(line[..x.start]), NoneVal))
           && rec.value.base.text == Str(line[x.end..])
           && o == Continue(TxtState(st.sessions[last := Session(s.start, Some(Advance(st.ts, st.increment)), s.tracks + [rec.value])],
                                     st.increment, st.album, Advance(st.ts, st.increment)), answers))
  {
    var x := Dashes(line)[0];
    SplitOnDashReconstructs(line, x);
    SplitOfNormalLine(line, x);
    TrackRecordShape(line[..x.start], line[x.end..], st.ts, st.album);
  }

  // ---------------------------------------------------------------------------
  // Invariants of the loop
  // ---------------------------------------------------------------------------

  /**
   * A session has an end exactly once it has a track, and its first track is
   * stamped with its start.
   */
  predicate SessionOk(s: Session)
  {
    (s.end.None? <==> s.tracks == [])
    && (s.tracks != [] ==> s.tracks[0].timestamp == Int(s.start))
  }

  /**
   * Every session is well formed, and the cursor is the start of the current
   * session while it is empty and its end once it has tracks.
   */
  predicate StateOk(st: TxtState)
  {
    (forall k :: 0 <= k < |st.sessions| ==> SessionOk(st.sessions[k]))
    && (st.sessions != [] ==>
          var s := st.sessions[|st.sessions| - 1];
          if s.tracks == [] then st.ts == s.start else s.end == Some(st.ts))
  }

  /**
   * What one line can do to the state: `!COMM`, `!ALB` and a deleted line keep
   * the sessions and the cursor, `!INT` sets the spacing to a parsed number,
   * `!DATE` opens a session at the new cursor, and a track is appended to the
   * current session stamped with the cursor.
   */
  lemma StepCases(env: Env, st: TxtState, line: string, answers: seq<string>)
    ensures var o := Step(env, st, line, answers);
      o.Continue? ==>
        || (o.st.sessions == st.sessions && o.st.ts == st.ts && o.st.increment == st.increment)
        || (o.st.sessions == st.sessions && o.st.ts == st.ts && IntArg(env, line) == Some(o.st.increment))
        || (o.st.sessions == st.sessions + [Session(o.st.ts, None, [])] && o.st.increment == st.increment)
        || (Appended(st, o.st) && o.st == AddTrack(st, LastTrack(o.st)))
  {
    var o := Step(env, st, line, answers);
    var (command, arg) := SplitCommand(line);
    if o.Continue? && !IsDirective(command) {
      match Resolve(line, Dashes(line), answers)
      case Resolved(l, x, rest) =>
        var rec := TrackRecord(Prefix(l, x.start), Suffix(l, x.end), st.ts, st.album).value;
        assert o.st == AddTrack(st, rec);
        assert LastTrack(o.st) == rec;
      case _ =>
    } else if o.Continue? && command == "!INT" {
      assert IntArg(env, line) == Some(o.st.increment);
    }
  }

  /** The spacing this line sets when it is an `!INT` line whose argument parses, if any. */
  function IntArg(env: Env, line: string): Option<real>
  {
    var (command, arg) := SplitCommand(line);
    if command == "!INT" && arg.Some? then env.parseFloat(arg.value) else None
  }

  /** The last track of the last session. */
  function LastTrack(st: TxtState): Scrobble
    requires st.sessions != [] && st.sessions[|st.sessions| - 1].tracks != []
  {
    var s := st.sessions[|st.sessions| - 1];
    s.tracks[|s.tracks| - 1]
  }

  /** `next` has a track in its current session, stamped with the cursor of `st`. */
  predicate Appended(st: TxtState, next: TxtState)
  {
    st.sessions != [] && next.sessions != [] && next.sessions[|next.sessions| - 1].tracks != []
    && LastTrack(next).timestamp == Int(st.ts)
  }

  /** Each line keeps the invariant, and only adds a session (`!DATE`) or changes the last one. */
  lemma StepKeepsStateOk(env: Env, st: TxtState, line: string, answers: seq<string>)
    requires StateOk(st)
    ensures var o := Step(env, st, line, answers);
      o.Continue? ==>
        && StateOk(o.st)
        && (|o.st.sessions| == |st.sessions| || |o.st.sessions| == |st.sessions| + 1)
        && (st.sessions != [] ==> o.st.sessions[..|st.sessions| - 1] == st.sessions[..|st.sessions| - 1])
  {
    var o := Step(env, st, line, answers);
    StepCases(env, st, line, answers);
    if o.Continue? && o.st.sessions != st.sessions {
      if o.st.sessions == st.sessions + [Session(o.st.ts, None, [])] {
        assert o.st.sessions[..|st.sessions|] == st.sessions;
      } else {
        var last := |st.sessions| - 1;
        assert SessionOk(o.st.sessions[last]);
      }
    }
  }

  /** The whole loop keeps the invariant: every session it returns is well formed. */
  lemma {:induction false} RunKeepsStateOk(env: Env, st: TxtState, lines: seq<string>, answers: seq<string>)
    requires StateOk(st)
    ensures var r := Run(env, st, lines, answers);
      r.Sessions? ==> forall k :: 0 <= k < |r.sessions| ==> SessionOk(r.sessions[k])
    decreases |lines|
  {
    if lines != [] {
      StepKeepsStateOk(env, st, lines[0], answers);
      var o := Step(env, st, lines[0], answers);
      if o.Continue? {
        RunKeepsStateOk(env, o.st, lines[1..], o.rest);
      }
    }
  }

  /** What `__txt` returns: sessions that each end once they have tracks and begin with a track at their start time. */
  lemma TxtSessionsOk(env: Env, file: seq<string>, answers: seq<string>)
    ensures var r := Txt(env, file, answers);
      r.Sessions? ==> forall k :: 0 <= k < |r.sessions| ==> SessionOk(r.sessions[k])
  {
    RunKeepsStateOk(env, Init, Readline(file), answers);
  }

  /** The line is not an `!INT` line with a negative spacing. */
  predicate SpacingNonNegative(env: Env, line: string)
  {
    IntArg(env, line).Some? ==> IntArg(env, line).value >= 0.0
  }

  /** No `!INT` line of the file sets a negative spacing, so no line moves the clock back. */
  predicate SpacingsNonNegative(env: Env, lines: seq<string>)
  {
    forall k :: 0 <= k < |lines| ==> SpacingNonNegative(env, lines[k])
  }

  /** A session's tracks are stamped in order, none before its start and none after its end. */
  predicate Chronological(s: Session)
  {
    (forall k :: 0 <= k < |s.tracks| ==> s.tracks[k].timestamp.Int? && s.start <= s.tracks[k].timestamp.i)
    && (forall k, l :: 0 <= k < l < |s.tracks| && s.tracks[k].timestamp.Int? && s.tracks[l].timestamp.Int? ==>
          s.tracks[k].timestamp.i <= s.tracks[l].timestamp.i)
    && (forall k :: 0 <= k < |s.tracks| && s.end.Some? && s.tracks[k].timestamp.Int? ==> s.tracks[k].timestamp.i <= s.end.value)
  }

  /** The spacing is non-negative, every session is chronological and the cursor is not before the current session's start. */
  predicate Ordered(st: TxtState)
  {
    st.increment >= 0.0
    && (forall k :: 0 <= k < |st.sessions| ==> Chronological(st.sessions[k]))
    && (st.sessions != [] ==> st.sessions[|st.sessions| - 1].start <= st.ts)
  }

  /** A line that sets no negative spacing keeps the sessions chronological. */
  lemma StepKeepsOrdered(env: Env, st: TxtState, line: string, answers: seq<string>)
    requires SpacingNonNegative(env, line) && StateOk(st) && Ordered(st)
    ensures var o := Step(env, st, line, answers);
      o.Continue? ==> Ordered(o.st)
  {
    var o := Step(env, st, line, answers);
    StepCases(env, st, line, answers);
    if o.Continue? {
      MoveKeepsOrdered(env, st, o.st, line);
    }
  }

  /** Each of the moves `StepCases` allows keeps the sessions chronological. */
  lemma MoveKeepsOrdered(env: Env, st: TxtState, next: TxtState, line: string)
    requires SpacingNonNegative(env, line) && StateOk(st) && Ordered(st)
    requires
      || (next.sessions == st.sessions && next.ts == st.ts && next.increment == st.increment)
      || (next.sessions == st.sessions && next.ts == st.ts && IntArg(env, line) == Some(next.increment))
      || (next.sessions == st.sessions + [Session(next.ts, None, [])] && next.increment == st.increment)
      || (Appended(st, next) && next == AddTrack(st, LastTrack(next)))
    ensures Ordered(next)
  {
    if Appended(st, next) && next == AddTrack(st, LastTrack(next)) {
      AddTrackKeepsOrdered(st, LastTrack(next));
    } else if next.sessions == st.sessions + [Session(next.ts, None, [])] {
      assert forall k :: 0 <= k < |st.sessions| ==> next.sessions[k] == st.sessions[k];
      assert Chronological(Session(next.ts, None, []));
    }
  }

  /** A track stamped with the cursor keeps the current session chronological: the end moves forward past it. */
  lemma AddTrackKeepsOrdered(st: TxtState, rec: Scrobble)
    requires StateOk(st) && Ordered(st) && st.sessions != [] && rec.timestamp == Int(st.ts)
    ensures Ordered(AddTrack(st, rec))
  {
    var last := |st.sessions| - 1;
    var s := st.sessions[last];
    var n := AddTrack(st, rec).sessions[last];
    AdvanceBounds(st.ts, st.increment);
    assert n.tracks == s.tracks + [rec];
    assert forall k :: 0 <= k < |s.tracks| ==> n.tracks[k] == s.tracks[k];
    assert s.tracks != [] ==> s.end == Some(st.ts);
    assert Chronological(n);
  }

  /** When no `!INT` line sets a negative spacing, every session the loop returns is chronological. */
  lemma {:induction false} RunKeepsOrdered(env: Env, st: TxtState, lines: seq<string>, answers: seq<string>)
    requires SpacingsNonNegative(env, lines) && StateOk(st) && Ordered(st)
    ensures var r := Run(env, st, lines, answers);
      r.Sessions? ==> forall k :: 0 <= k < |r.sessions| ==> Chronological(r.sessions[k])
    decreases |lines|
  {
    if lines != [] {
      StepKeepsStateOk(env, st, lines[0], answers);
      StepKeepsOrdered(env, st, lines[0], answers);
      var o := Step(env, st, lines[0], answers);
      if o.Continue? {
        assert SpacingsNonNegative(env, lines[1..]) by {
          forall k | 0 <= k < |lines[1..]| ensures SpacingNonNegative(env, lines[1..][k]) { assert lines[1..][k] == lines[k + 1]; }
        }
        RunKeepsOrdered(env, o.st, lines[1..], o.rest);
      }
    }
  }

  lemma TxtChronological(env: Env, file: seq<string>, answers: seq<string>)
    requires SpacingsNonNegative(env, Readline(file))
    ensures var r := Txt(env, file, answers);
      r.Sessions? ==> forall k :: 0 <= k < |r.sessions| ==> Chronological(r.sessions[k])
  {
    RunKeepsOrdered(env, Init, Readline(file), answers);
  }

  /** A STOP at any line discards every session read so far. */
  lemma RunStop(env: Env, st: TxtState, line: string, lines: seq<string>, answers: seq<string>)
    requires !IsDirective(SplitCommand(line).0) && Resolve(line, Dashes(line), answers) == Stopped
    ensures Run(env, st, [line] + lines, answers) == Aborted
  {
    assert ([line] + lines)[0] == line;
  }

  // ---------------------------------------------------------------------------
  // The reader as the code runs it
  // ---------------------------------------------------------------------------

  /** The prompt loop for one track line, reading answers from position `next0`. */
  method ResolveSeparator(line0: string, answers: seq<string>, next0: nat) returns (res: Resolution, next: nat)
    requires next0 <= |answers|
    ensures next <= |answers|
    ensures res == Resolve(line0, Dashes(line0), answers[next0..])
    ensures res.Resolved? || res.Skipped? ==> res.rest == answers[next..]
  {
    ghost var target := Resolve(line0, Dashes(line0), answers[next0..]);
    var line := line0;
    var splits := FindDashes(line);
    next := next0;
    while |splits| != 1
      invariant next <= |answers|
      invariant Resolve(line, splits, answers[next..]) == target
      decreases |answers| - next
    {
      if next == |answers| {
        return NoInput, next;
      }
      var resp := answers[next];
      ResolveAnswer(line, splits, answers, next);
      next := next + 1;
      if |splits| == 0 {
        if Upper(resp) == "DELETE" {
          return Skipped(answers[next..]), next;
        } else if Upper(resp) == "RETYPE" {
          if next == |answers| {
            return NoInput, next;
          }
          line := answers[next];
          next := next + 1;
          splits := FindDashes(line);
        } else if Upper(resp) == "STOP" {
          return Stopped, next;
        }
      } else {
        if Upper(resp) == "STOP" {
          return Stopped, next;
        }
        if IsNumeric(resp) && ParseNat(resp) < |splits| {
          var index := ParseNat(resp);
          splits := splits[index..index + 1];
        }
      }
    }
    res := Resolved(line, splits[0], answers[next..]);
  }

  /** One prompt of the loop, stated on positions in the answer stream. */
  lemma ResolveAnswer(line: string, splits: seq<Span>, answers: seq<string>, next: nat)
    requires |splits| != 1 && next < |answers|
    ensures var resp, r := answers[next], Resolve(line, splits, answers[next..]);
      && (|splits| == 0 && Upper(resp) == "DELETE" ==> r == Skipped(answers[next + 1..]))
      && (|splits| == 0 && Upper(resp) == "RETYPE" && next + 1 == |answers| ==> r == NoInput)
      && (|splits| == 0 && Upper(resp) == "RETYPE" && next + 1 < |answers| ==>
            r == Resolve(answers[next + 1], Dashes(answers[next + 1]), answers[next + 2..]))
      && (Upper(resp) == "STOP" ==> r == Stopped)
      && (|splits| > 1 && Upper(resp) != "STOP" && IsNumeric(resp) && ParseNat(resp) < |splits| ==>
            r == Resolve(line, splits[ParseNat(resp)..ParseNat(resp) + 1], answers[next + 1..]))
      && (|splits| == 0 && Upper(resp) != "DELETE" && Upper(resp) != "RETYPE" && Upper(resp) != "STOP" ==>
            r == Resolve(line, splits, answers[next + 1..]))
      && (|splits| > 1 && Upper(resp) != "STOP" && !(IsNumeric(resp) && ParseNat(resp) < |splits|) ==>
            r == Resolve(line, splits, answers[next + 1..]))
  {
    var tail := answers[next..];
    assert tail[0] == answers[next] && tail[1..] == answers[next + 1..];
    if next + 1 < |answers| {
      assert tail[1..][0] == answers[next + 1] && tail[1..][1..] == answers[next + 2..];
    }
    if |splits| > 1 && IsNumeric(answers[next]) && ParseNat(answers[next]) < |splits| {
      var n := ParseNat(answers[next]);
      assert splits[n..n + 1] == [splits[n]];
    }
  }

  /** One raw line as the loop meets it: a blank line is skipped, any other is one `Step`. */
  lemma RunLine(env: Env, st: TxtState, file: seq<string>, i: nat, answers: seq<string>)
    requires i < |file|
    ensures var line, here := Normalize(file[i]), Run(env, st, Readline(file[i..]), answers);
      && (line == "" ==> here == Run(env, st, Readline(file[i + 1..]), answers))
      && (line != "" ==> here == match Step(env, st, line, answers)
                                 case Abort => Aborted
                                 case Fail(e) => Failed(e)
                                 case Continue(next, rest) => Run(env, next, Readline(file[i + 1..]), rest))
  {
    assert file[i..] == [file[i]] + file[i + 1..];
    assert file[i..][1..] == file[i + 1..];
  }

  /**
   * The body of the `for line in readline(tracklist)` loop for one non-blank
   * line: the directives, or the prompts and the new track; the answers are
   * read from position `next0`.
   */
  method TxtLine(env: Env, st: TxtState, line: string, answers: seq<string>, next0: nat) returns (o: Outcome, next: nat)
    requires next0 <= |answers|
    ensures o == Step(env, st, line, answers[next0..])
    ensures next <= |answers| && (o.Continue? ==> o.rest == answers[next..])
  {
    var sessions, increment, album, ts := st.sessions, st.increment, st.album, st.ts;
    var currBatch := |sessions| - 1;
    next := next0;
    var (command, arg) := SplitCommand(line);
    if command == "!COMM" {
      return Continue(st, answers[next..]), next;
    } else if command == "!INT" {
      if arg.None? {
        return Fail(MissingArgument), next;
      }
      var x := env.parseFloat(arg.value);
      if x.None? {
        return Fail(NotANumber), next;
      }
      increment := x.value;
    } else if command == "!ALB" {
      if arg.None? || arg.value == "" {
        album := None;
      } else {
        var splits := FindDashes(arg.value);
        var parts := SplitOnDash(arg.value, splits, 0);
        if parts.None? {
          return Fail(NoAlbumSeparator), next;
        }
        album := Some(AlbumContext(parts.value.0, parts.value.1));
      }
    } else if command == "!DATE" {
      if arg.None? {
        return Fail(MissingArgument), next;
      }
      var start := GetTimestamp(env, arg.value);
      if start.Err? {
        return Fail(BadDate(start.error)), next;
      }
      ts := start.value;
      currBatch := currBatch + 1;
      sessions := sessions + [Session(ts, None, [])];
    } else {
      var res, n := ResolveSeparator(line, answers, next);
      if res.Stopped? {
        return Abort, next;
      } else if res.NoInput? {
        return Fail(EndOfInput), next;
      } else if res.Skipped? {
        return Continue(st, answers[n..]), n;
      }
      var parts := SplitOnDash(res.line, [res.dash], 0);
      var rec := TrackRecord(parts.value.0, parts.value.1, ts, album);
      if rec.Err? {
        return Fail(BadTrack(rec.error)), next;
      }
      if currBatch < 0 {
        return Fail(NoSession), next;
      }
      var s := sessions[currBatch];
      sessions := sessions[currBatch := s.(tracks := s.tracks + [rec.value])];
      ts := Advance(ts, increment);
      sessions := sessions[currBatch := sessions[currBatch].(end := Some(ts))];
      next := n;
      assert TxtState(sessions, increment, album, ts) == AddTrack(st, rec.value);
    }
    o := Continue(TxtState(sessions, increment, album, ts), answers[next..]);
  }

  /** `__txt` over the raw lines of the file, with the answers to its prompts. */
  method ParseTxt(env: Env, file: seq<string>, answers: seq<string>) returns (r: TxtResult)
    ensures r == Txt(env, file, answers)
  {
    var st := Init;
    var next := 0;
    var i := 0;
    while i < |file|
      invariant 0 <= i <= |file| && 0 <= next <= |answers|
      invariant Run(env, st, Readline(file[i..]), answers[next..]) == Txt(env, file, answers)
    {
      var line := Normalize(file[i]);
      RunLine(env, st, file, i, answers[next..]);
      if line != "" {
        var o, n := TxtLine(env, st, line, answers, next);
        match o
        case Abort => return Aborted;
        case Fail(e) => return Failed(e);
        case Continue(after, _) => st, next := after, n;
      }
      i := i + 1;
    }
    assert file[i..] == [];
    r := Sessions(st.sessions);
  }
}
