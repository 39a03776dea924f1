/**
 * The Last.fm client object (`utils/lfm_api.py`, class `LastFM`): its user
 * session, the time of its last request, and the requests it sends.
 *
 * The network is an oracle `server`: the reply to the `n`-th request the
 * client ever sends. The wall clock is the field `now` in milliseconds; it
 * moves only when the client sleeps and while a request is in flight. MD5 is
 * the opaque function `md5`.
 */
module LfmApi {
  import opened Common
  import opened LfmObjects
  import opened LfmProtocol
  import opened Funcs

  /** `requests.get` or `requests.post`. */
  datatype Verb = Get | Post

  /**
   * One request the client makes: its verb, the `params` dict handed to
   * `requests.get`/`requests.post` (with `format=json`), and the time it was
   * sent. A `None` value stays in the dict; the HTTP library drops such keys
   * from the request it encodes, while the signature has signed `'None'`.
   */
  datatype Request = Request(verb: Verb, params: map<string, Val>, at: int)

  /** The `ret_val` of each call the decorator makes, read off the replies from position `start` on. */
  function Stream<T>(server: nat -> Response, start: nat, wrapped: Response -> Result<Attempt<T>, Failure>): nat -> Result<Attempt<T>, Failure>
  {
    (k: nat) => wrapped(server(start + k))
  }

  /** Why the constructor cannot find its API key and secret. */
  datatype SetupError = NoApiSettings

  /**
   * The key and secret the constructor settles on: the arguments when both
   * are given, otherwise `API_KEY` and `API_SECRET` of the configuration,
   * which must both be present.
   */
  function ResolveKeys(apiKey: Option<string>, apiSecret: Option<string>, configs: map<string, string>): (r: Result<(string, string), SetupError>)
    ensures apiKey.Some? && apiSecret.Some? ==> r == Ok((apiKey.value, apiSecret.value))
    ensures apiKey.None? || apiSecret.None? ==> (r.Ok? <==> "API_KEY" in configs && "API_SECRET" in configs)
    ensures (apiKey.None? || apiSecret.None?) && r.Ok? ==> r.value == (configs["API_KEY"], configs["API_SECRET"])
  {
    if apiKey.Some? && apiSecret.Some? then Ok((apiKey.value, apiSecret.value))
    else if "API_KEY" in configs && "API_SECRET" in configs then Ok((configs["API_KEY"], configs["API_SECRET"]))
    else Err(NoApiSettings)
  }

  /** The saved profile is a session when it has a non-empty `SESSION_KEY`. */
  function SavedSession(saved: map<string, string>): (r: Option<map<string, string>>)
    ensures r.Some? <==> "SESSION_KEY" in saved && saved["SESSION_KEY"] != ""
    ensures r.Some? ==> r.value == saved
  {
    if "SESSION_KEY" in saved && saved["SESSION_KEY"] != "" then Some(saved) else None
  }

  /** What `__scrobble` sends: the batch parameters and their signature; `format` is added afterwards. */
  ghost function Signed(apiKey: string, sessionKey: string, batch: seq<Scrobble>, secret: string, md5: string -> string): map<string, Val>
    requires HasArtists(batch)
  {
    var p := BatchParams(apiKey, sessionKey, batch);
    p["api_sig" := Str(md5(PreImage(p, secret)))]
  }

  /** The least of a non-empty set of keys, found by one pass over the set. */
  method LeastKey(keys: set<string>) returns (m: string)
    requires keys != {}
    ensures IsLeast(m, keys)
  {
    m :| m in keys;
    StrLeReflexive(m);
    var rest := keys - {m};
    while rest != {}
      invariant rest <= keys && m in keys
      invariant forall k :: k in keys - rest ==> StrLe(m, k)
      decreases |rest|
    {
      var x :| x in rest;
      StrLeTotal(m, x);
      if !StrLe(m, x) {
        forall k | k in keys - rest
          ensures StrLe(x, k)
        {
          StrLeTransitive(x, m, k);
        }
        StrLeReflexive(x);
        m := x;
      }
      rest := rest - {x};
    }
  }

  /** `sorted(keys)`: the keys in ascending order, least first. */
  method SortedKeys(keys: set<string>) returns (r: seq<string>)
    ensures r == Sorted(keys)
  {
    r := [];
    var rest := keys;
    while rest != {}
      invariant rest <= keys
      invariant r + Sorted(rest) == Sorted(keys)
      decreases |rest|
    {
      var m := LeastKey(rest);
      SortedFirst(rest, m);
      AppendAssoc(r, [m], Sorted(rest - {m}));
      r := r + [m];
      rest := rest - {m};
    }
  }

  /**
   * The parameters `__scrobble` posts before signing: the header, then each
   * record's parameters indexed by its position, the positions taken in
   * string order (`sorted(str(x) for x in range(len(batch)))`). A record
   * without an artist ends the call.
   */
  method BuildBatchParams(apiKey: string, sessionKey: string, batch: seq<Scrobble>) returns (r: Result<map<string, Val>, Failure>)
    ensures r.Ok? <==> HasArtists(batch)
    ensures r.Err? ==> r.error == NoArtist
    ensures r.Ok? ==> r.value == BatchParams(apiKey, sessionKey, batch)
  {
    var params := Header(apiKey, sessionKey);
    var names := PositionNames(|batch|);
    var ind := SortedKeys(names);
    SortedNames(|batch|, names, ind);
    ghost var done: set<nat> := {};
    for x := 0 to |ind|
      invariant ValidIdx(batch, done)
      invariant done == set j | 0 <= j < x :: ParseNat(ind[j])
      invariant params == Header(apiKey, sessionKey) + Indexed(batch, done)
    {
      var k := ParseNat(ind[x]);
      assert ind[x] == NatToString(k) && k < |batch|;
      DecimalHasNoBrackets(k);
      var p := ApiParams(batch[k], ind[x]);
      if p.Err? {
        return Err(NoArtist);
      }
      BuildStep(Header(apiKey, sessionKey), batch, ind, x, done);
      params := params + p.value;
      done := done + {k};
    }
    AllPositionsDone(batch, names, ind, done);
    r := Ok(params);
  }

  /** The client. */
  class LastFM {
    const apiKey: string
    const apiSecret: string
    /** The profile section the session is saved under. */
    const sessionName: string
    const md5: string -> string
    /** The reply to the `n`-th request sent. */
    const server: nat -> Response

    /** `__SESSION`: the saved profile (`SESSION_KEY`, `USER`), or None when logged out. */
    var session: Option<map<string, string>>
    /** `__LAST_REQUEST_AT`, in milliseconds. */
    var lastRequestAt: int
    /** The clock `time()` reads, in milliseconds. */
    var now: int
    /** Every request sent so far, in order. */
    var sent: seq<Request>

    /**
     * A session has a key; the last request time is that of the last request
     * sent and not in the future; requests are at least a second apart.
     */
    predicate Valid()
      reads this
    {
      && (session.Some? ==> "SESSION_KEY" in session.value)
      && lastRequestAt <= now
      && (sent == [] ==> lastRequestAt == NeverRequested)
      && (sent != [] ==> lastRequestAt == sent[|sent| - 1].at)
      && (forall j :: 0 < j < |sent| ==> sent[j - 1].at + Delay <= sent[j].at)
    }

    /**
     * `LastFM(api_key=..., api_secret=..., login=False, user=...)` with the
     * saved profile `saved`: logged in exactly when it holds a session key.
     */
    constructor(apiKey: string, apiSecret: string, sessionName: string, saved: map<string, string>,
                md5: string -> string, server: nat -> Response, clock: nat)
      ensures Valid()
      ensures this.apiKey == apiKey && this.apiSecret == apiSecret && this.sessionName == sessionName
      ensures this.md5 == md5 && this.server == server
      ensures session == SavedSession(saved)
      ensures lastRequestAt == NeverRequested && now == clock && sent == []
    {
      this.apiKey := apiKey;
      this.apiSecret := apiSecret;
      this.sessionName := sessionName;
      this.md5 := md5;
      this.server := server;
      session := SavedSession(saved);
      lastRequestAt := NeverRequested;
      now := clock;
      sent := [];
    }

    /** `is_logged_in`. */
    predicate IsLoggedIn()
      reads this
    {
      session.Some?
    }

    /** The `user` property: the saved user name, or a notice when logged out. */
    function User(): (r: Result<string, Failure>)
      reads this
      ensures session.None? ==> r == Ok("No user logged in.")
      ensures session.Some? ==> (r.Ok? <==> "USER" in session.value)
      ensures session.Some? && r.Ok? ==> r.value == session.value["USER"]
    {
      if session.None? then Ok("No user logged in.")
      else if "USER" in session.value then Ok(session.value["USER"])
      else Err(KeyFailure("USER"))
    }

    /**
     * A request through `__rate_limit`: sleep in steps until a second has
     * passed since the last request, send it at that time with
     * `format=json`, then record that time as the last request time.
     */
    method Send(verb: Verb, params: map<string, Val>) returns (resp: Response)
      requires Valid()
      modifies this
      ensures Valid()
      ensures var at := ReadyAt(old(now), old(lastRequestAt));
        && sent == old(sent) + [Request(verb, params["format" := Str("json")], at)]
        && lastRequestAt == at
        && now == at + resp.latency
      ensures resp == server(|old(sent)|)
      ensures session == old(session) && now >= old(now)
    {
      var curr := now;
      while curr < lastRequestAt + Delay
        invariant curr == now && old(now) <= now
        invariant ReadyAt(curr, lastRequestAt) == ReadyAt(old(now), old(lastRequestAt))
        invariant lastRequestAt == old(lastRequestAt) && sent == old(sent) && session == old(session)
        decreases lastRequestAt + Delay - curr
      {
        now := now + WaitStep;
        curr := now;
      }
      ReadyAtBounds(old(now), old(lastRequestAt));
      resp := server(|sent|);
      sent := sent + [Request(verb, params["format" := Str("json")], curr)];
      now := now + resp.latency;
      lastRequestAt := curr;
    }

    /** `__create_signature`: the MD5 of the key/value pairs in sorted key order followed by the secret. */
    method CreateSignature(params: map<string, Val>) returns (sig: string)
      ensures sig == md5(PreImage(params, apiSecret))
    {
      var keys := SortedKeys(params.Keys);
      var text := "";
      for i := 0 to |keys|
        invariant text == Pairs(keys[..i], params)
      {
        PairsPrefix(keys, i, params);
        text := text + keys[i] + Repr(params[keys[i]]);
      }
      assert keys[..|keys|] == keys;
      text := text + apiSecret;
      sig := md5(text);
    }

    /**
     * A request wrapped in `__handle_req_error(timeout, retry)`: the wrapped
     * function sends the same request each time and reads its reply with
     * `wrapped`; the result and the number of requests are those of `Handle`
     * on the replies the server gives.
     */
    method HandleReqError<T>(verb: Verb, params: map<string, Val>, wrapped: Response -> Result<Attempt<T>, Failure>,
                             timeout: nat, retry: nat) returns (r: Result<T, Failure>)
      requires Valid()
      modifies this
      ensures Valid()
      ensures var (res, n) := Handle(Stream(server, |old(sent)|, wrapped), retry);
        && r == res && |sent| == |old(sent)| + n
        && Repeats(sent, old(sent), verb, params["format" := Str("json")])
      ensures session == old(session) && now >= old(now)
    {
      ghost var start := |sent|;
      ghost var outcome := Stream(server, start, wrapped);
      ghost var wire := params["format" := Str("json")];
      var retries := 0;
      var lastBody: map<string, Json> := map[];
      while retries < retry
        invariant Valid() && session == old(session) && now >= old(now)
        invariant retries <= retry && |sent| == start + retries
        invariant Repeats(sent, old(sent), verb, wire)
        invariant HandleFrom(outcome, retry, retries) == Handle(outcome, retry)
        invariant retries > 0 ==> outcome(retries - 1).Ok? && outcome(retries - 1).value.body == lastBody
      {
        var resp := SendRepeated(verb, params, old(sent));
        var o := wrapped(resp);
        assert o == outcome(retries);
        var verdict := Verdict(o);
        if verdict.Some? {
          HandleFromStop(outcome, retry, retries);
          return verdict.value;
        }
        HandleFromNext(outcome, retry, retries);
        retries := retries + 1;
        lastBody := o.value.body;
        Sleep(timeout * 1000);
      }
      if retries == 0 {
        r := Err(NoAttempt);
      } else {
        r := Raise(lastBody);
      }
    }

    /** `sleep(ms / 1000)`: only the clock moves. */
    method Sleep(ms: nat)
      requires Valid()
      modifies this
      ensures Valid() && now == old(now) + ms
      ensures session == old(session) && sent == old(sent) && lastRequestAt == old(lastRequestAt)
    {
      now := now + ms;
    }

    /** One more call of the wrapped function: the same request once more, after those of `base`. */
    method SendRepeated(verb: Verb, params: map<string, Val>, ghost base: seq<Request>) returns (resp: Response)
      requires Valid() && Repeats(sent, base, verb, params["format" := Str("json")])
      modifies this
      ensures Valid() && session == old(session) && now >= old(now)
      ensures |sent| == |old(sent)| + 1 && Repeats(sent, base, verb, params["format" := Str("json")])
      ensures resp == server(|old(sent)|)
    {
      ghost var before := sent;
      resp := Send(verb, params);
      RepeatsSnoc(before, base, Request(verb, params["format" := Str("json")], sent[|sent| - 1].at));
    }

    /**
     * `__scrobble(batch)`: the header, then each record's parameters indexed
     * by its position, taken in the string order of the positions, signed,
     * and posted once; the reply items are read in the corrected order
     * (status first).
     */
    method ScrobbleBatch(batch: seq<Scrobble>) returns (r: Result<seq<ScrobbleResult>, Failure>)
      requires Valid() && session.Some?
      modifies this
      ensures Valid() && session == old(session) && now >= old(now)
      ensures !HasArtists(batch) ==> r == Err(NoArtist) && sent == old(sent)
      ensures HasArtists(batch) ==>
        var signed := Signed(apiKey, session.value["SESSION_KEY"], batch, apiSecret, md5);
        var (res, n) := Handle(Stream(server, |old(sent)|, ScrobbleOutcome), 1);
        && r == res && |sent| == |old(sent)| + n
        && Repeats(sent, old(sent), Post, signed["format" := Str("json")])
      ensures HasArtists(batch) ==> |sent| == |old(sent)| + 1 && r == BatchReply(server, |old(sent)|, 0)
    {
      var built := BuildBatchParams(apiKey, session.value["SESSION_KEY"], batch);
      if built.Err? {
        return Err(built.error);
      }
      var params := built.value;
      var sig := CreateSignature(params);
      params := params["api_sig" := Str(sig)];
      ghost var before := |sent|;
      r := HandleReqError(Post, params, ScrobbleOutcome, 0, 1);
      // with one try the decorator sends exactly one request
      HandleShape(Stream(server, before, ScrobbleOutcome), 1);
    }

    /**
     * `scrobble(scrobbles, num_per_batch)`: needs a session, shows the user
     * (a KeyError without one), clamps the batch size to 50, posts the batches
     * of `progressbar_batch` in order, stops at the first batch that raises,
     * and counts the accepted and the ignored scrobbles. `results` are the
     * results of the batches posted before the first error.
     */
    method ScrobbleAll(scrobbles: seq<Scrobble>, numPerBatch: int) returns (r: Result<Tally, Failure>, results: seq<ScrobbleResult>)
      requires Valid()
      modifies this
      ensures Valid() && session == old(session)
      ensures old(session).None? ==> r == Err(NotLoggedIn) && sent == old(sent)
      ensures old(session).Some? && "USER" !in old(session).value ==> r == Err(KeyFailure("USER")) && sent == old(sent)
      ensures old(session).Some? && "USER" in old(session).value && Clamp(numPerBatch) == 0 && |scrobbles| > 0 ==>
                r == Err(ZeroBatchSize) && sent == old(sent)
      ensures old(session).Some? && "USER" in old(session).value && (Clamp(numPerBatch) != 0 || |scrobbles| == 0) ==>
                var (e, rs, n) := Posted(server, |old(sent)|, Chunks(scrobbles, EffectiveSize(Clamp(numPerBatch))));
                && results == rs && |sent| == |old(sent)| + n
                && r == (if e.None? then Ok(Tallied(results)) else Err(e.value))
      ensures old(session).Some? ==>
                var batches := Chunks(scrobbles, EffectiveSize(Clamp(numPerBatch)));
                Carries(sent, |old(sent)|, batches, Wires(apiKey, old(session).value["SESSION_KEY"], batches, apiSecret, md5))
      ensures r.Ok? ==> r.value.accepted + r.value.ignored == |results|
      ensures r.Ok? ==> |sent| == |old(sent)| + |Chunks(scrobbles, EffectiveSize(Clamp(numPerBatch)))|
    {
      results := [];
      if session.None? {
        return Err(NotLoggedIn), results;
      }
      var size := Clamp(numPerBatch);
      var user := User();
      if user.Err? {
        return Err(user.error), results;
      }
      if size == 0 && |scrobbles| > 0 {
        return Err(ZeroBatchSize), results;
      }
      var batches, counts := ProgressbarBatch(scrobbles, size);
      ghost var start := |sent|;
      ghost var sk := session.value["SESSION_KEY"];
      var accepted, ignored := 0, 0;
      assert batches[0..] == batches;
      ghost var whole := Posted(server, start, batches);
      assert Then(results, 0, whole) == whole by { assert results + whole.1 == whole.1; }
      for i := 0 to |batches|
        invariant Valid() && session == old(session)
        invariant Tally(accepted, ignored) == Tallied(results)
        invariant |sent| == start + i
        invariant Posted(server, start, batches) == Then(results, i, Posted(server, |sent|, batches[i..]))
        invariant Carries(sent, start, batches, Wires(apiKey, sk, batches, apiSecret, md5))
      {
        var resp := PostNext(batches, i, start, sk, results);
        if resp.Err? {
          return Err(resp.error), results;
        }
        accepted, ignored := TallyBatch(results, resp.value, accepted, ignored);
        results := results + resp.value;
      }
      assert batches[|batches|..] == [];
      r := Ok(Tally(accepted, ignored));
      TallyTotal(results);
      PostedCount(server, start, batches);
    }

    /** One turn of the `scrobble` loop: post batch `i` and say how the run goes on. */
    method PostNext(batches: seq<seq<Scrobble>>, i: nat, ghost start: nat, ghost sk: string, ghost done: seq<ScrobbleResult>)
      returns (resp: Result<seq<ScrobbleResult>, Failure>)
      requires Valid() && session.Some? && sk == session.value["SESSION_KEY"]
      requires i < |batches| && |sent| == start + i
      requires Carries(sent, start, batches, Wires(apiKey, sk, batches, apiSecret, md5))
      modifies this
      ensures Valid() && session == old(session)
      ensures Carries(sent, start, batches, Wires(apiKey, sk, batches, apiSecret, md5))
      ensures resp.Ok? ==>
                && |sent| == start + i + 1
                && Then(done, i, Posted(server, start + i, batches[i..])) == Then(done + resp.value, i + 1, Posted(server, |sent|, batches[i + 1..]))
      ensures resp.Err? ==> Then(done, i, Posted(server, start + i, batches[i..])) == (Some(resp.error), done, |sent| - start)
    {
      ghost var before := sent;
      resp := ScrobbleBatch(batches[i]);
      if HasArtists(batches[i]) {
        WiresAt(apiKey, sk, batches, apiSecret, md5, i);
        CarriesExtend(before, sent, start, batches, Wires(apiKey, sk, batches, apiSecret, md5));
      }
      PostedStep(server, start, i, |before|, batches, done, resp, |sent|);
    }

    /** `logout`: a session is dropped and its user returned; without one nothing changes. */
    method Logout() returns (r: Result<(bool, string), Failure>)
      requires Valid()
      modifies this
      ensures Valid()
      ensures old(session).None? ==> r == Ok((false, sessionName)) && session == None
      ensures old(session).Some? && "USER" in old(session).value ==> r == Ok((true, old(session).value["USER"])) && session == None
      ensures old(session).Some? && "USER" !in old(session).value ==> r == Err(KeyFailure("USER")) && session == old(session)
      ensures sent == old(sent) && now == old(now) && lastRequestAt == old(lastRequestAt)
    {
      r := Ok((false, sessionName));
      if session.Some? {
        var user := User();
        if user.Err? {
          return Err(user.error);
        }
        session := None;
        r := Ok((true, user.value));
      }
    }
  }

  /** The loop over one batch's results: each Accepted adds one to `accepted`, each Ignored one to `ignored`. */
  method TallyBatch(done: seq<ScrobbleResult>, resp: seq<ScrobbleResult>, accepted0: nat, ignored0: nat) returns (accepted: nat, ignored: nat)
    requires Tally(accepted0, ignored0) == Tallied(done)
    ensures Tally(accepted, ignored) == Tallied(done + resp)
  {
    accepted, ignored := accepted0, ignored0;
    assert done + resp[..0] == done;
    for j := 0 to |resp|
      invariant Tally(accepted, ignored) == Tallied(done + resp[..j])
    {
      assert resp[..j + 1] == resp[..j] + [resp[j]];
      assert done + resp[..j + 1] == (done + resp[..j]) + [resp[j]];
      CountAppend(done + resp[..j], [resp[j]], true);
      CountAppend(done + resp[..j], [resp[j]], false);
      if resp[j].status.Accepted? {
        accepted := accepted + 1;
      } else if resp[j].status.Ignored? {
        ignored := ignored + 1;
      }
    }
    assert resp[..|resp|] == resp;
  }

  /** The reply to the batch posted as request number `start + i`, through `__handle_req_error(0, 1)`. */
  function BatchReply(server: nat -> Response, start: nat, i: nat): Result<seq<ScrobbleResult>, Failure>
  {
    Handle(Stream(server, start + i, ScrobbleOutcome), 1).0
  }

  /**
   * Posting `batches` in order from request number `start` on: the first
   * error (a batch without an artist object sends nothing, any other batch
   * sends one request), the results of the batches before it, and the
   * number of requests sent.
   */
  function Posted(server: nat -> Response, start: nat, batches: seq<seq<Scrobble>>): (Option<Failure>, seq<ScrobbleResult>, nat)
    decreases |batches|
  {
    if batches == [] then (None, [], 0)
    else if !HasArtists(batches[0]) then (Some(NoArtist), [], 0)
    else
      match BatchReply(server, start, 0)
      case Err(e) => (Some(e), [], 1)
      case Ok(rs) =>
        var (e, more, n) := Posted(server, start + 1, batches[1..]);
        (e, rs + more, n + 1)
  }

  /** Results and requests collected before the rest of a run. */
  function Then(done: seq<ScrobbleResult>, sentSoFar: nat, rest: (Option<Failure>, seq<ScrobbleResult>, nat)): (Option<Failure>, seq<ScrobbleResult>, nat)
  {
    (rest.0, done + rest.1, sentSoFar + rest.2)
  }

  /** Request `start + 1 + i` is request `start + (i + 1)`. */
  lemma BatchReplyShift(server: nat -> Response, start: nat, i: nat)
    ensures BatchReply(server, start + 1, i) == BatchReply(server, start, i + 1)
  {
    assert start + 1 + i == start + (i + 1);
  }

  /** The results of the first `k` batches, concatenated. */
  function Joined(server: nat -> Response, start: nat, k: nat): seq<ScrobbleResult>
    requires forall i :: 0 <= i < k ==> BatchReply(server, start, i).Ok?
    decreases k
  {
    if k == 0 then []
    else
      ShiftedOk(server, start, start + 1, k);
      BatchReply(server, start, 0).value + Joined(server, start + 1, k - 1)
  }

  lemma ShiftedOk(server: nat -> Response, start: nat, next: nat, k: nat)
    requires next == start + 1
    requires forall i :: 0 <= i < k ==> BatchReply(server, start, i).Ok?
    ensures forall i :: 0 <= i < k - 1 ==> BatchReply(server, next, i).Ok?
  {
    forall i | 0 <= i < k - 1
      ensures BatchReply(server, next, i).Ok?
    {
      BatchReplyShift(server, start, i);
    }
  }

  /**
   * A run is decided by its first batch `k` that does not go through (has no
   * artist object, or its request raises): the results are those of the
   * batches before it, and the run fails with that batch's error after `k`
   * requests (no artist object) or `k + 1` (its request raised); when every
   * batch goes through there is no error and one request per batch.
   */
  lemma {:induction false} PostedByFirstFailure(server: nat -> Response, start: nat, batches: seq<seq<Scrobble>>, k: nat)
    requires k <= |batches|
    requires forall i :: 0 <= i < k ==> HasArtists(batches[i]) && BatchReply(server, start, i).Ok?
    requires k < |batches| ==> !HasArtists(batches[k]) || BatchReply(server, start, k).Err?
    ensures var (e, rs, n) := Posted(server, start, batches);
      && rs == Joined(server, start, k)
      && (k == |batches| ==> e.None? && n == k)
      && (k < |batches| && !HasArtists(batches[k]) ==> e == Some(NoArtist) && n == k)
      && (k < |batches| && HasArtists(batches[k]) ==> e == Some(BatchReply(server, start, k).error) && n == k + 1)
    decreases k
  {
    if k > 0 {
      var rest := batches[1..];
      forall i | 0 <= i < k - 1
        ensures HasArtists(rest[i]) && BatchReply(server, start + 1, i).Ok?
      {
        BatchReplyShift(server, start, i);
      }
      if k < |batches| {
        BatchReplyShift(server, start, k - 1);
        assert rest[k - 1] == batches[k];
      }
      PostedByFirstFailure(server, start + 1, rest, k - 1);
    }
  }

  /** A run sends at most one request per batch, and exactly one per batch when nothing fails. */
  lemma {:induction false} PostedCount(server: nat -> Response, start: nat, batches: seq<seq<Scrobble>>)
    ensures var (e, _, n) := Posted(server, start, batches);
      n <= |batches| && (e.None? ==> n == |batches|)
    decreases |batches|
  {
    if batches != [] && HasArtists(batches[0]) && BatchReply(server, start, 0).Ok? {
      PostedCount(server, start + 1, batches[1..]);
    }
  }

  /**
   * The parameter dicts the batches are posted with, in order: each batch's
   * signed parameters with `format` added (a batch without artists is never
   * posted and gets an empty dict).
   */
  ghost function Wires(apiKey: string, sk: string, batches: seq<seq<Scrobble>>, secret: string, md5: string -> string): (r: seq<map<string, Val>>)
    ensures |r| == |batches|
    decreases |batches|
  {
    if batches == [] then []
    else
      var w := if HasArtists(batches[0]) then Signed(apiKey, sk, batches[0], secret, md5)["format" := Str("json")] else map[];
      [w] + Wires(apiKey, sk, batches[1..], secret, md5)
  }

  lemma {:induction false} WiresAt(apiKey: string, sk: string, batches: seq<seq<Scrobble>>, secret: string, md5: string -> string, k: nat)
    requires k < |batches| && HasArtists(batches[k])
    ensures Wires(apiKey, sk, batches, secret, md5)[k] == Signed(apiKey, sk, batches[k], secret, md5)["format" := Str("json")]
    decreases k
  {
    if k > 0 {
      assert batches[1..][k - 1] == batches[k];
      WiresAt(apiKey, sk, batches[1..], secret, md5, k - 1);
    }
  }

  /** Every request from position `start` of `sent` on is the POST of the batch with the same number, with its wire parameters. */
  ghost predicate Carries(sent: seq<Request>, start: nat, batches: seq<seq<Scrobble>>, wires: seq<map<string, Val>>)
  {
    forall j :: start <= j < |sent| ==> PostedAt(sent, j, start, batches, wires)
  }

  /** Request `j` is the POST of batch `j - start`, with the batch's wire parameters. */
  ghost predicate PostedAt(sent: seq<Request>, j: nat, start: nat, batches: seq<seq<Scrobble>>, wires: seq<map<string, Val>>)
    requires j < |sent|
  {
    var k := j - start;
    && 0 <= k < |batches| && k < |wires| && HasArtists(batches[k])
    && sent[j].verb == Post && sent[j].params == wires[k]
  }

  lemma CarriesExtend(before: seq<Request>, sent: seq<Request>, start: nat, batches: seq<seq<Scrobble>>, wires: seq<map<string, Val>>)
    requires Carries(before, start, batches, wires)
    requires start <= |before| && |before| - start < |batches| && |before| - start < |wires| && HasArtists(batches[|before| - start])
    requires |sent| == |before| + 1 && sent[..|before|] == before
    requires sent[|before|].verb == Post && sent[|before|].params == wires[|before| - start]
    ensures Carries(sent, start, batches, wires)
  {
    forall j | start <= j < |sent|
      ensures PostedAt(sent, j, start, batches, wires)
    {
      if j < |before| {
        assert sent[j] == before[j];
        assert PostedAt(before, j, start, batches, wires);
      }
    }
  }

  /** A batch that goes through adds its results and one request, and the run continues with the next batch. */
  lemma PostedGoes(server: nat -> Response, s: nat, batches: seq<seq<Scrobble>>, i: nat, done: seq<ScrobbleResult>, rs: seq<ScrobbleResult>)
    requires i < |batches| && HasArtists(batches[i]) && BatchReply(server, s, 0) == Ok(rs)
    ensures Then(done, i, Posted(server, s, batches[i..])) == Then(done + rs, i + 1, Posted(server, s + 1, batches[i + 1..]))
  {
    assert batches[i..][0] == batches[i] && batches[i..][1..] == batches[i + 1..];
    var p := Posted(server, s + 1, batches[i + 1..]);
    assert done + (rs + p.1) == (done + rs) + p.1;
  }

  /** A batch that does not go through ends the run with its error. */
  lemma PostedStops(server: nat -> Response, s: nat, batches: seq<seq<Scrobble>>, i: nat, done: seq<ScrobbleResult>)
    requires i < |batches| && (!HasArtists(batches[i]) || BatchReply(server, s, 0).Err?)
    ensures !HasArtists(batches[i]) ==> Then(done, i, Posted(server, s, batches[i..])) == (Some(NoArtist), done, i)
    ensures HasArtists(batches[i]) ==> Then(done, i, Posted(server, s, batches[i..])) == (Some(BatchReply(server, s, 0).error), done, i + 1)
  {
    assert batches[i..][0] == batches[i];
    assert done + [] == done;
  }

  /** One turn of the run, stated in the terms of the loop: what the batch's reply does to the outcome. */
  lemma PostedStep(server: nat -> Response, start: nat, i: nat, s: nat, batches: seq<seq<Scrobble>>, done: seq<ScrobbleResult>,
                   resp: Result<seq<ScrobbleResult>, Failure>, count: nat)
    requires i < |batches| && s == start + i
    requires !HasArtists(batches[i]) ==> resp == Err(NoArtist) && count == s
    requires HasArtists(batches[i]) ==> resp == BatchReply(server, s, 0) && count == s + 1
    ensures resp.Ok? ==>
              && count == start + i + 1
              && Then(done, i, Posted(server, start + i, batches[i..])) == Then(done + resp.value, i + 1, Posted(server, count, batches[i + 1..]))
    ensures resp.Err? ==> Then(done, i, Posted(server, start + i, batches[i..])) == (Some(resp.error), done, count - start)
  {
    if resp.Err? {
      PostedStops(server, start + i, batches, i, done);
    } else {
      PostedGoes(server, start + i, batches, i, done, resp.value);
    }
  }

  /** `sent` is `before` followed by copies of one request (at any times). */
  ghost predicate Repeats(sent: seq<Request>, before: seq<Request>, verb: Verb, params: map<string, Val>)
  {
    && |before| <= |sent| && sent[..|before|] == before
    && forall i :: |before| <= i < |sent| ==> sent[i].verb == verb && sent[i].params == params
  }

  lemma RepeatsSnoc(sent: seq<Request>, before: seq<Request>, req: Request)
    requires Repeats(sent, before, req.verb, req.params)
    ensures Repeats(sent + [req], before, req.verb, req.params)
  {
    assert (sent + [req])[..|before|] == sent[..|before|];
  }

  lemma AppendAssoc<T>(a: seq<T>, b: seq<T>, c: seq<T>)
    ensures a + (b + c) == (a + b) + c
  { }

  lemma MapUnionAssoc<K, V>(a: map<K, V>, b: map<K, V>, c: map<K, V>)
    ensures (a + b) + c == a + (b + c)
  { }

  /** `str(x) for x in range(n)`, as a set. */
  function PositionNames(n: nat): set<string>
  {
    set k: nat | k < n :: NatToString(k)
  }

  /** Each name is the decimal form of a position below `n`. */
  predicate DecimalNames(ind: seq<string>, n: nat)
  {
    forall i :: 0 <= i < |ind| ==> AllDigits(ind[i]) && ParseNat(ind[i]) < n && ind[i] == NatToString(ParseNat(ind[i]))
  }

  /** `sorted(str(x) for x in range(n))` lists decimal names of positions, strictly ascending. */
  lemma SortedNames(n: nat, names: set<string>, ind: seq<string>)
    requires names == PositionNames(n)
    requires ind == Sorted(names)
    ensures DecimalNames(ind, n)
    ensures forall i, j :: 0 <= i < j < |ind| ==> StrLt(ind[i], ind[j])
  {
    SortedAscending(names);
    forall i | 0 <= i < |ind|
      ensures AllDigits(ind[i]) && ParseNat(ind[i]) < n && ind[i] == NatToString(ParseNat(ind[i]))
    {
      assert ind[i] in names;
      var k :| 0 <= k < n && ind[i] == NatToString(k);
      ParseNatToString(k);
    }
  }

  /** One pass of the loop in `BuildBatchParams` keeps its invariant. */
  lemma BuildStep(header: map<string, Val>, batch: seq<Scrobble>, ind: seq<string>, x: nat, done: set<nat>)
    requires x < |ind| && DecimalNames(ind, |batch|)
    requires forall i, j :: 0 <= i < j < |ind| ==> StrLt(ind[i], ind[j])
    requires ValidIdx(batch, done) && done == set j | 0 <= j < x :: ParseNat(ind[j])
    requires batch[ParseNat(ind[x])].artist.Some?
    ensures var k := ParseNat(ind[x]);
      && ValidIdx(batch, done + {k})
      && done + {k} == (set j | 0 <= j < x + 1 :: ParseNat(ind[j]))
      && header + Indexed(batch, done) + RecordParams(batch, k) == header + Indexed(batch, done + {k})
  {
    var k := ParseNat(ind[x]);
    NamesDistinct(ind, |batch|, x);
    IndexedAdd(batch, done, k);
    MapUnionAssoc(header, Indexed(batch, done), RecordParams(batch, k));
  }

  /** Distinct sorted names are distinct positions. */
  lemma NamesDistinct(ind: seq<string>, n: nat, x: nat)
    requires x < |ind| && DecimalNames(ind, n)
    requires forall i, j :: 0 <= i < j < |ind| ==> StrLt(ind[i], ind[j])
    ensures ParseNat(ind[x]) !in set j | 0 <= j < x :: ParseNat(ind[j])
  {
    forall j | 0 <= j < x
      ensures ParseNat(ind[j]) != ParseNat(ind[x])
    {
      assert StrLt(ind[j], ind[x]);
    }
  }

  /** After the loop every position of the batch has been merged in. */
  lemma AllPositionsDone(batch: seq<Scrobble>, names: set<string>, ind: seq<string>, done: set<nat>)
    requires names == PositionNames(|batch|)
    requires ind == Sorted(names) && DecimalNames(ind, |batch|)
    requires done == set j | 0 <= j < |ind| :: ParseNat(ind[j])
    requires ValidIdx(batch, done)
    ensures done == Positions(|batch|)
    ensures HasArtists(batch)
  {
    forall k: nat | k < |batch|
      ensures k in done
    {
      var name := NatToString(k);
      assert name in names;
      assert name in ind;
      var j :| 0 <= j < |ind| && ind[j] == name;
      ParseNatToString(k);
      assert ParseNat(ind[j]) == k;
    }
  }
}
