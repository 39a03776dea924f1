/**
 * The pure side of the Last.fm client (`utils/lfm_api.py`): the status-code
 * sets, the retry behaviour of the `__handle_req_error` decorator, the
 * signature pre-image of `__create_signature`, the wait of `__rate_limit`,
 * the parameters of a `track.scrobble` batch and the reading of its reply.
 */
module LfmProtocol {
  import opened Common
  import opened LfmObjects

  // ---------------------------------------------------------------------------
  // Status codes
  // ---------------------------------------------------------------------------

  /** `LFM_STATUS_RETRY`: service offline (11), token not authorised (14), temporary error (16). */
  const StatusRetry: set<int> := {11, 14, 16}

  /** `LFM_STATUS_FAILURE`: the twelve codes that are never retried. */
  const StatusFailure: set<int> := {8, 2, 3, 4, 5, 6, 7, 10, 13, 9, 26, 29}

  /** No code is both retried and a failure. */
  lemma StatusSetsDisjoint()
    ensures StatusRetry !! StatusFailure
  {
  }

  /** The sets have three and twelve distinct codes. */
  lemma StatusSetsSizes()
    ensures |StatusRetry| == 3 && |StatusFailure| == 12
  {
    var low := {2, 3, 4, 5, 6, 7};
    var high := {8, 9, 10, 13, 26, 29};
    assert |low| == 6 && |high| == 6;
    assert StatusFailure == low + high;
    assert low !! high;
  }

  // ---------------------------------------------------------------------------
  // Replies and failures
  // ---------------------------------------------------------------------------

  /** A decoded JSON value, as `resp.json()` returns it. */
  datatype Json = JNull | JInt(i: int) | JStr(s: string) | JList(items: seq<Json>) | JObj(fields: map<string, Json>)

  /** The exceptions a request can end in. */
  datatype Failure =
    | ApiFailure(code: Json, message: Json) // APIResponseError(resp_json['error'], resp_json['message'])
    | KeyFailure(key: string)               // KeyError on a missing dict key
    | TypeFailure                           // subscripting or iterating a JSON value of the wrong kind
    | NoAttempt                             // `retry == 0`: the loop never ran and `resp_json` is unbound
    | NotLoggedIn                           // `__check_logged_in` without a session
    | NoArtist                              // `get_api_params` on a scrobble without an artist object
    | ZeroBatchSize                         // `loop_batch` with a batch size of 0: ZeroDivisionError

  /** A reply of the server: HTTP status, the decoded body, and how long the request took (ms). */
  datatype Response = Response(status: int, body: map<string, Json>, latency: nat)

  /** What a wrapped request function returns: `(status_code, resp_json, ret_val)`. */
  datatype Attempt<T> = Attempt(status: int, body: map<string, Json>, value: T)

  /** `resp_json['error']` is one of the listed codes (a JSON integer). */
  predicate HasCode(body: map<string, Json>, codes: set<int>)
  {
    "error" in body && body["error"].JInt? && body["error"].i in codes
  }

  /** `raise APIResponseError(resp_json['error'], resp_json['message'])`, with the KeyError of a missing field. */
  function Raise<T>(body: map<string, Json>): (r: Result<T, Failure>)
    ensures r.Err?
    ensures r.error.ApiFailure? <==> "error" in body && "message" in body
  {
    if "error" !in body then Err(KeyFailure("error"))
    else if "message" !in body then Err(KeyFailure("message"))
    else Err(ApiFailure(body["error"], body["message"]))
  }

  // ---------------------------------------------------------------------------
  // `__handle_req_error(timeout, retry)`
  // ---------------------------------------------------------------------------

  /** A call the decorator retries: a non-200 reply whose error code is in the retry set. */
  predicate Retryable<T>(o: Result<Attempt<T>, Failure>)
  {
    o.Ok? && o.value.status != 200 && !HasCode(o.value.body, StatusFailure) && HasCode(o.value.body, StatusRetry)
  }

  /** A call that returns its value: a 200 reply. */
  predicate Succeeded<T>(o: Result<Attempt<T>, Failure>)
  {
    o.Ok? && o.value.status == 200
  }

  /**
   * What the decorator makes of one call: `Some` of the value it returns or
   * the error it raises, or `None` when it waits and calls again.
   */
  function Verdict<T>(o: Result<Attempt<T>, Failure>): (r: Option<Result<T, Failure>>)
    ensures r.None? <==> Retryable(o)
    ensures r.Some? && r.value.Ok? <==> Succeeded(o)
    ensures Succeeded(o) ==> r.value.value == o.value.value
  {
    match o
    case Err(f) => Some(Err(f))
    case Ok(a) =>
      if a.status == 200 then Some(Ok(a.value))
      else if "error" !in a.body then Some(Err(KeyFailure("error")))
      else if HasCode(a.body, StatusFailure) then Some(Raise(a.body))
      else if HasCode(a.body, StatusRetry) then None
      else Some(Raise(a.body))
  }

  /**
   * The decorator's loop after `k` retried calls, where `outcome(j)` is what
   * the `j`-th call of the wrapped function returns or raises: the result and
   * the number of calls made. A 200 returns, a failure code or an unknown code
   * raises at once, a retryable code calls again until `retry` calls were
   * made, and then the last reply is raised.
   */
  function HandleFrom<T>(outcome: nat -> Result<Attempt<T>, Failure>, retry: nat, k: nat): (Result<T, Failure>, nat)
    requires k <= retry
    decreases retry - k
  {
    if k == retry then
      if k == 0 then (Err(NoAttempt), 0)
      else
        match outcome(k - 1)
        case Err(f) => (Err(f), k)
        case Ok(a) => (Raise(a.body), k)
    else
      match Verdict(outcome(k))
      case Some(r) => (r, k + 1)
      case None => HandleFrom(outcome, retry, k + 1)
  }

  /** A call the decorator does not retry ends the loop with its verdict. */
  lemma HandleFromStop<T>(outcome: nat -> Result<Attempt<T>, Failure>, retry: nat, k: nat)
    requires k < retry && Verdict(outcome(k)).Some?
    ensures HandleFrom(outcome, retry, k) == (Verdict(outcome(k)).value, k + 1)
  {
  }

  /** A retried call leaves the rest of the loop to the next call. */
  lemma HandleFromNext<T>(outcome: nat -> Result<Attempt<T>, Failure>, retry: nat, k: nat)
    requires k < retry && Verdict(outcome(k)).None?
    ensures HandleFrom(outcome, retry, k) == HandleFrom(outcome, retry, k + 1)
  {
  }

  /** The decorated function called with the replies `outcome(0), outcome(1), ...`. */
  function Handle<T>(outcome: nat -> Result<Attempt<T>, Failure>, retry: nat): (Result<T, Failure>, nat)
  {
    HandleFrom(outcome, retry, 0)
  }

  /**
   * The shape of every run of the loop: at most `retry` calls, every call but
   * the last one retried, and a value exactly when the last call got a 200,
   * the value that call returned.
   */
  lemma {:induction false} HandleFromShape<T>(outcome: nat -> Result<Attempt<T>, Failure>, retry: nat, k: nat)
    requires k <= retry
    requires forall j :: 0 <= j < k ==> Retryable(outcome(j))
    ensures var (r, n) := HandleFrom(outcome, retry, k);
      && k <= n <= retry
      && (retry > 0 ==> n > 0)
      && (forall j :: 0 <= j < n - 1 ==> Retryable(outcome(j)))
      && (r.Ok? <==> n > 0 && Succeeded(outcome(n - 1)))
      && (r.Ok? ==> r.value == outcome(n - 1).value.value)
      && (n == retry && n > 0 && Retryable(outcome(n - 1)) ==> r == Raise(outcome(n - 1).value.body))
    decreases retry - k
  {
    if k < retry {
      var o := outcome(k);
      if o.Ok? && o.value.status != 200 && "error" in o.value.body
         && !HasCode(o.value.body, StatusFailure) && HasCode(o.value.body, StatusRetry) {
        HandleFromShape(outcome, retry, k + 1);
      }
    }
  }

  /** The whole decorated call: at most `retry` calls, only retryable replies repeated, a value iff the last call got a 200. */
  lemma HandleShape<T>(outcome: nat -> Result<Attempt<T>, Failure>, retry: nat)
    ensures var (r, n) := Handle(outcome, retry);
      && n <= retry
      && (retry > 0 ==> n > 0)
      && (retry == 0 ==> r == Err(NoAttempt))
      && (forall j :: 0 <= j < n - 1 ==> Retryable(outcome(j)))
      && (r.Ok? <==> n > 0 && Succeeded(outcome(n - 1)))
      && (r.Ok? ==> r.value == outcome(n - 1).value.value)
  {
    HandleFromShape(outcome, retry, 0);
  }

  /** A failure code is raised on its first occurrence: one call, no retry. */
  lemma HandleFailureNoRetry<T>(outcome: nat -> Result<Attempt<T>, Failure>, retry: nat)
    requires retry > 0 && outcome(0).Ok? && outcome(0).value.status != 200 && HasCode(outcome(0).value.body, StatusFailure)
    ensures Handle(outcome, retry) == (Raise(outcome(0).value.body), 1)
  {
  }

  /** A code in neither set is raised at once as well. */
  lemma HandleUnknownNoRetry<T>(outcome: nat -> Result<Attempt<T>, Failure>, retry: nat)
    requires retry > 0 && outcome(0).Ok? && outcome(0).value.status != 200 && "error" in outcome(0).value.body
    requires !HasCode(outcome(0).value.body, StatusFailure) && !HasCode(outcome(0).value.body, StatusRetry)
    ensures Handle(outcome, retry) == (Raise(outcome(0).value.body), 1)
  {
  }

  /** Retryable replies to every one of the `retry` calls raise the last of them, after exactly `retry` calls. */
  lemma HandleExhausted<T>(outcome: nat -> Result<Attempt<T>, Failure>, retry: nat)
    requires retry > 0 && forall j :: 0 <= j < retry ==> Retryable(outcome(j))
    ensures Retryable(outcome(retry - 1)) && Handle(outcome, retry) == (Raise(outcome(retry - 1).value.body), retry)
  {
    HandleFromShape(outcome, retry, 0);
    var (r, n) := Handle(outcome, retry);
    if n < retry {
      assert Retryable(outcome(n - 1));
      assert !Succeeded(outcome(n - 1));
      HandleStopsEarly(outcome, retry, 0);
    }
  }

  /** The loop only stops before `retry` calls on a reply that is not retryable. */
  lemma {:induction false} HandleStopsEarly<T>(outcome: nat -> Result<Attempt<T>, Failure>, retry: nat, k: nat)
    requires k <= retry
    ensures var (r, n) := HandleFrom(outcome, retry, k);
      && (k < retry ==> k < n)
      && (k < n < retry ==> !Retryable(outcome(n - 1)))
    decreases retry - k
  {
    if k < retry {
      var o := outcome(k);
      if o.Ok? && o.value.status != 200 && "error" in o.value.body
         && !HasCode(o.value.body, StatusFailure) && HasCode(o.value.body, StatusRetry) {
        HandleStopsEarly(outcome, retry, k + 1);
      }
    }
  }

  // ---------------------------------------------------------------------------
  // `__rate_limit`: the abstract clock, in milliseconds
  // ---------------------------------------------------------------------------

  /** `__API_DELAY = 1` second between requests. */
  const Delay: int := 1000

  /** `__API_DELAY_STEPS = 0.4` second per sleep. */
  const WaitStep: int := 400

  /** `__LAST_REQUEST_AT = -1`. */
  const NeverRequested: int := -1000

  /** The time the wait loop leaves at: it sleeps a step at a time until `last + Delay` is reached. */
  function ReadyAt(now: int, last: int): int
    decreases last + Delay - now
  {
    if now >= last + Delay then now else ReadyAt(now + WaitStep, last)
  }

  /**
   * The request goes out no earlier than a delay after the previous one, never
   * before the call, after a whole number of sleeps, and with no sleep more
   * than needed.
   */
  lemma {:induction false} ReadyAtBounds(now: int, last: int)
    ensures var t := ReadyAt(now, last);
      && t >= last + Delay
      && t >= now
      && (t - now) % WaitStep == 0
      && (t == now || t < last + Delay + WaitStep)
      && (now >= last + Delay ==> t == now)
    decreases last + Delay - now
  {
    if now < last + Delay {
      ReadyAtBounds(now + WaitStep, last);
    }
  }

  // ---------------------------------------------------------------------------
  // `__create_signature`
  // ---------------------------------------------------------------------------

  /** `key + str(value)` for each key in turn. */
  function Pairs(keys: seq<string>, params: map<string, Val>): string
    requires forall k :: k in keys ==> k in params
  {
    if keys == [] then "" else keys[0] + Repr(params[keys[0]]) + Pairs(keys[1..], params)
  }

  /** The string whose MD5 is the signature: the pairs in sorted key order, then the secret. */
  ghost function PreImage(params: map<string, Val>, secret: string): string
  {
    Pairs(Sorted(params.Keys), params) + secret
  }

  lemma {:induction false} PairsSnoc(keys: seq<string>, k: string, params: map<string, Val>)
    requires forall x :: x in keys ==> x in params
    requires k in params
    ensures Pairs(keys + [k], params) == Pairs(keys, params) + k + Repr(params[k])
  {
    if keys != [] {
      assert (keys + [k])[1..] == keys[1..] + [k];
      PairsSnoc(keys[1..], k, params);
    }
  }

  /** The pairs of the first `i + 1` keys extend those of the first `i` by one key and its value. */
  lemma PairsPrefix(keys: seq<string>, i: nat, params: map<string, Val>)
    requires i < |keys| && forall x :: x in keys ==> x in params
    ensures forall x :: x in keys[..i] ==> x in params
    ensures Pairs(keys[..i + 1], params) == Pairs(keys[..i], params) + keys[i] + Repr(params[keys[i]])
  {
    assert keys[..i + 1] == keys[..i] + [keys[i]];
    PairsSnoc(keys[..i], keys[i], params);
  }

  lemma {:induction false} PairsAgree(keys: seq<string>, p: map<string, Val>, q: map<string, Val>)
    requires forall x :: x in keys ==> x in p && x in q && p[x] == q[x]
    ensures Pairs(keys, p) == Pairs(keys, q)
  {
    if keys != [] {
      PairsAgree(keys[1..], p, q);
    }
  }

  /**
   * The pre-image starts with the least key and its value, followed by the
   * pre-image of the other parameters: insertion order plays no part.
   */
  lemma PreImageFirst(params: map<string, Val>, secret: string, m: string)
    requires IsLeast(m, params.Keys)
    ensures PreImage(params, secret) == m + Repr(params[m]) + PreImage(params - {m}, secret)
  {
    var rest := Sorted(params.Keys - {m});
    PairsFirst(params, m);
    PairsWithout(params, m);
    ConcatAssoc(m + Repr(params[m]), Pairs(rest, params), secret);
  }

  lemma ConcatAssoc(a: string, b: string, c: string)
    ensures a + b + c == a + (b + c)
  {
  }

  /** The pairs in sorted order start with the least key. */
  lemma PairsFirst(params: map<string, Val>, m: string)
    requires IsLeast(m, params.Keys)
    ensures Pairs(Sorted(params.Keys), params) == m + Repr(params[m]) + Pairs(Sorted(params.Keys - {m}), params)
  {
    SortedFirst(params.Keys, m);
    var all := Sorted(params.Keys);
    assert all[0] == m && all[1..] == Sorted(params.Keys - {m});
  }

  /** Removing the least key leaves the pairs of the other keys unchanged. */
  lemma PairsWithout(params: map<string, Val>, m: string)
    ensures var rest := params - {m};
      Pairs(Sorted(params.Keys - {m}), params) == Pairs(Sorted(rest.Keys), rest)
  {
    var rest := params - {m};
    assert rest.Keys == params.Keys - {m};
    var keys := Sorted(params.Keys - {m});
    assert forall x :: x in keys ==> x in rest && rest[x] == params[x];
    PairsAgree(keys, params, rest);
  }

  /** A single parameter signs as its key, its value and the secret. */
  lemma PreImageSingle(k: string, v: Val, secret: string)
    ensures PreImage(map[k := v], secret) == k + Repr(v) + secret
  {
    var p := map[k := v];
    StrLeReflexive(k);
    assert IsLeast(k, p.Keys);
    PreImageFirst(p, secret, k);
    assert (p - {k}).Keys == {};
  }

  // ---------------------------------------------------------------------------
  // `__scrobble`: the request
  // ---------------------------------------------------------------------------

  /** `{'method': 'track.scrobble', 'api_key': ..., 'sk': ...}`. */
  function Header(apiKey: string, sessionKey: string): map<string, Val>
  {
    map["method" := Str("track.scrobble"), "api_key" := Str(apiKey), "sk" := Str(sessionKey)]
  }

  /** `get_api_params(str(k))` of the record at position `k`. */
  function RecordParams(batch: seq<Scrobble>, k: nat): map<string, Val>
    requires k < |batch| && batch[k].artist.Some?
  {
    DecimalHasNoBrackets(k);
    ApiParams(batch[k], NatToString(k)).value
  }

  lemma DecimalHasNoBrackets(k: nat)
    ensures NoBrackets(NatToString(k))
  {
    var s := NatToString(k);
    assert AllDigits(s);
    assert forall i :: 0 <= i < |s| ==> s[i] != '[' && s[i] != ']';
  }

  /** Records at different positions share no key. */
  lemma RecordParamsDisjoint(batch: seq<Scrobble>, j: nat, k: nat)
    requires j < |batch| && k < |batch| && batch[j].artist.Some? && batch[k].artist.Some? && j != k
    ensures RecordParams(batch, j).Keys !! RecordParams(batch, k).Keys
  {
    DecimalHasNoBrackets(j);
    DecimalHasNoBrackets(k);
    NatToStringInjective(j, k);
    ApiParamsDisjoint(batch[j], NatToString(j), batch[k], NatToString(k));
  }

  predicate HasArtists(batch: seq<Scrobble>)
  {
    forall k :: 0 <= k < |batch| ==> batch[k].artist.Some?
  }

  /** Positions in the batch whose records have an artist object. */
  predicate ValidIdx(batch: seq<Scrobble>, idx: set<nat>)
  {
    forall k :: k in idx ==> k < |batch| && batch[k].artist.Some?
  }

  /** The keys the records at the positions in `idx` contribute. */
  ghost function IndexedKeys(batch: seq<Scrobble>, idx: set<nat>): set<string>
    requires ValidIdx(batch, idx)
  {
    set k, key | k in idx && key in RecordParams(batch, k) :: key
  }

  /** The position whose record contributes `key`; by disjointness there is only one. */
  ghost function Owner(batch: seq<Scrobble>, idx: set<nat>, key: string): (k: nat)
    requires ValidIdx(batch, idx) && key in IndexedKeys(batch, idx)
    ensures k in idx && key in RecordParams(batch, k)
  {
    var k :| k in idx && key in RecordParams(batch, k); k
  }

  /** The parameters of the records at the positions in `idx`, merged. */
  ghost function Indexed(batch: seq<Scrobble>, idx: set<nat>): map<string, Val>
    requires ValidIdx(batch, idx)
  {
    map key | key in IndexedKeys(batch, idx) :: RecordParams(batch, Owner(batch, idx, key))[key]
  }

  /** A key of the record at position `k` is merged with that record's value. */
  lemma IndexedLookup(batch: seq<Scrobble>, idx: set<nat>, k: nat, key: string)
    requires ValidIdx(batch, idx) && k in idx && key in RecordParams(batch, k)
    ensures key in Indexed(batch, idx) && Indexed(batch, idx)[key] == RecordParams(batch, k)[key]
  {
    assert key in IndexedKeys(batch, idx);
    var o := Owner(batch, idx, key);
    if o != k {
      RecordParamsDisjoint(batch, o, k);
    }
  }

  /** Adding one more position merges in exactly that record's parameters. */
  lemma IndexedAdd(batch: seq<Scrobble>, idx: set<nat>, j: nat)
    requires ValidIdx(batch, idx) && j < |batch| && batch[j].artist.Some? && j !in idx
    ensures Indexed(batch, idx + {j}) == Indexed(batch, idx) + RecordParams(batch, j)
  {
    IndexedAddOld(batch, idx, j);
    IndexedAddNew(batch, idx, j);
  }

  /** Every key merged after adding position `j` was merged before or comes from record `j`, with the same value. */
  lemma IndexedAddOld(batch: seq<Scrobble>, idx: set<nat>, j: nat)
    requires ValidIdx(batch, idx) && j < |batch| && batch[j].artist.Some? && j !in idx
    ensures var a, b := Indexed(batch, idx + {j}), Indexed(batch, idx) + RecordParams(batch, j);
      forall key :: key in a ==> key in b && a[key] == b[key]
  {
    var a, b := Indexed(batch, idx + {j}), Indexed(batch, idx) + RecordParams(batch, j);
    forall key | key in a ensures key in b && a[key] == b[key] {
      var k := Owner(batch, idx + {j}, key);
      if k == j {
        IndexedLookup(batch, idx + {j}, j, key);
      } else {
        RecordParamsDisjoint(batch, j, k);
        IndexedLookup(batch, idx + {j}, k, key);
        IndexedLookup(batch, idx, k, key);
      }
    }
  }

  /** Every key merged before adding position `j`, or contributed by record `j`, is merged after. */
  lemma IndexedAddNew(batch: seq<Scrobble>, idx: set<nat>, j: nat)
    requires ValidIdx(batch, idx) && j < |batch| && batch[j].artist.Some? && j !in idx
    ensures var a, b := Indexed(batch, idx + {j}), Indexed(batch, idx) + RecordParams(batch, j);
      forall key :: key in b ==> key in a
  {
    var a, b := Indexed(batch, idx + {j}), Indexed(batch, idx) + RecordParams(batch, j);
    forall key | key in b ensures key in a {
      if key in RecordParams(batch, j) {
        IndexedLookup(batch, idx + {j}, j, key);
      } else {
        var k := Owner(batch, idx, key);
        IndexedLookup(batch, idx + {j}, k, key);
      }
    }
  }

  /** The positions `0 .. n-1`. */
  function Positions(n: nat): (s: set<nat>)
    ensures forall k: nat :: k in s <==> k < n
  {
    if n == 0 then {} else Positions(n - 1) + {n - 1}
  }

  /** Everything `__scrobble` signs: the header and the parameters of every record, indexed by its position. */
  ghost function BatchParams(apiKey: string, sessionKey: string, batch: seq<Scrobble>): map<string, Val>
    requires HasArtists(batch)
  {
    Header(apiKey, sessionKey) + Indexed(batch, Positions(|batch|))
  }

  /**
   * The record at position `k` contributes exactly its parameters indexed
   * `str(k)`, the header is kept, and no other key appears; `format` is not
   * among the signed parameters.
   */
  lemma BatchParamsShape(apiKey: string, sessionKey: string, batch: seq<Scrobble>)
    requires HasArtists(batch)
    ensures var p := BatchParams(apiKey, sessionKey, batch);
      && (forall k: nat, key :: k < |batch| && key in RecordParams(batch, k) ==> key in p && p[key] == RecordParams(batch, k)[key])
      && (forall key :: key in p ==> key in Header(apiKey, sessionKey) || exists k: nat :: k < |batch| && key in RecordParams(batch, k))
      && "format" !in p && "api_sig" !in p
      && p["method"] == Str("track.scrobble") && p["api_key"] == Str(apiKey) && p["sk"] == Str(sessionKey)
  {
    BatchParamsRecords(apiKey, sessionKey, batch);
    BatchParamsOthers(apiKey, sessionKey, batch);
  }

  lemma BatchParamsRecords(apiKey: string, sessionKey: string, batch: seq<Scrobble>)
    requires HasArtists(batch)
    ensures var p := BatchParams(apiKey, sessionKey, batch);
      forall k: nat, key :: k < |batch| && key in RecordParams(batch, k) ==> key in p && p[key] == RecordParams(batch, k)[key]
  {
    var idx := Positions(|batch|);
    var p := BatchParams(apiKey, sessionKey, batch);
    forall k: nat, key | k < |batch| && key in RecordParams(batch, k)
      ensures key in p && p[key] == RecordParams(batch, k)[key]
    {
      IndexedKeyEnds(batch, k, key);
      IndexedLookup(batch, idx, k, key);
    }
  }

  lemma BatchParamsOthers(apiKey: string, sessionKey: string, batch: seq<Scrobble>)
    requires HasArtists(batch)
    ensures var p := BatchParams(apiKey, sessionKey, batch);
      && (forall key :: key in p ==> key in Header(apiKey, sessionKey) || exists k: nat :: k < |batch| && key in RecordParams(batch, k))
      && "format" !in p && "api_sig" !in p
      && p["method"] == Str("track.scrobble") && p["api_key"] == Str(apiKey) && p["sk"] == Str(sessionKey)
  {
    var idx := Positions(|batch|);
    var h, merged := Header(apiKey, sessionKey), Indexed(batch, idx);
    var p := h + merged;
    IndexedKeysForeign(batch, idx);
    assert "method" !in merged && "api_key" !in merged && "sk" !in merged;
    assert "format" !in merged && "api_sig" !in merged;
    forall key | key in p && key !in h
      ensures exists k: nat :: k < |batch| && key in RecordParams(batch, k)
    {
      var k := Owner(batch, idx, key);
      assert k < |batch| && key in RecordParams(batch, k);
    }
  }

  /** A merged record key is no header key, nor `format` nor `api_sig`, and comes from one of the records. */
  lemma IndexedKeysForeign(batch: seq<Scrobble>, idx: set<nat>)
    requires ValidIdx(batch, idx)
    ensures forall key :: key in Indexed(batch, idx) ==>
      && key !in {"method", "api_key", "sk", "format", "api_sig"}
      && Owner(batch, idx, key) in idx
  {
    forall key | key in Indexed(batch, idx)
      ensures key !in {"method", "api_key", "sk", "format", "api_sig"}
    {
      IndexedKeyEnds(batch, Owner(batch, idx, key), key);
    }
  }

  /** A record key ends in `]`, which no header key nor `format` nor `api_sig` does. */
  lemma IndexedKeyEnds(batch: seq<Scrobble>, k: nat, key: string)
    requires k < |batch| && batch[k].artist.Some? && key in RecordParams(batch, k)
    ensures key !in {"method", "api_key", "sk", "format", "api_sig"}
  {
    DecimalHasNoBrackets(k);
    ApiParamsIndexed(batch[k], NatToString(k));
    assert key[|key| - 1] == ']';
  }

  // ---------------------------------------------------------------------------
  // `__scrobble`: the reply
  // ---------------------------------------------------------------------------

  /** `x[key]` on a decoded JSON value. */
  function Get(j: Json, key: string): (r: Result<Json, Failure>)
    ensures r.Ok? <==> j.JObj? && key in j.fields
    ensures r.Ok? ==> r.value == j.fields[key]
  {
    match j
    case JObj(m) => if key in m then Ok(m[key]) else Err(KeyFailure(key))
    case _ => Err(TypeFailure)
  }

  /** `for x in value`: a list yields its items; an empty string or object yields nothing; any other item is a str key or char. */
  function Iterate(j: Json): (r: Result<seq<Json>, Failure>)
    ensures j.JList? ==> r == Ok(j.items)
  {
    match j
    case JList(xs) => Ok(xs)
    case JObj(m) => if m == map[] then Ok([]) else Err(TypeFailure)
    case JStr(s) => if s == "" then Ok([]) else Err(TypeFailure)
    case _ => Err(TypeFailure)
  }

  /** How the server took one scrobble. */
  datatype ItemStatus = Accepted | Ignored(code: Json, text: Json)

  /** One element of `ret_val`: status, artist and track text, timestamp. */
  datatype ScrobbleResult = ScrobbleResult(status: ItemStatus, artist: Json, track: Json, timestamp: Json)

  /** The dict built for one reply item; the `ignoredMessage` code `'0'` means accepted. */
  function ParseItem(x: Json): Result<ScrobbleResult, Failure>
  {
    var artist :- Get(x, "artist");
    var artistText :- Get(artist, "#text");
    var track :- Get(x, "track");
    var trackText :- Get(track, "#text");
    var timestamp :- Get(x, "timestamp");
    var ignored :- Get(x, "ignoredMessage");
    var code :- Get(ignored, "code");
    if code == JStr("0") then Ok(ScrobbleResult(Accepted, artistText, trackText, timestamp))
    else
      var text :- Get(ignored, "#text");
      Ok(ScrobbleResult(Ignored(code, text), artistText, trackText, timestamp))
  }

  /** The loop over the reply items, in order; the first item that cannot be read raises. */
  function ParseItems(xs: seq<Json>): Result<seq<ScrobbleResult>, Failure>
  {
    if xs == [] then Ok([])
    else
      var first :- ParseItem(xs[0]);
      var rest :- ParseItems(xs[1..]);
      Ok([first] + rest)
  }

  /** `msg['scrobbles']['scrobble']`, then the loop. */
  function ParseScrobbles(body: map<string, Json>): Result<seq<ScrobbleResult>, Failure>
  {
    var scrobbles :- Get(JObj(body), "scrobbles");
    var items :- Get(scrobbles, "scrobble");
    var xs :- Iterate(items);
    ParseItems(xs)
  }

  /**
   * One result per reply item, in reply order, each the reading of its item;
   * the loop succeeds exactly when every item can be read.
   */
  lemma {:induction false} ParseItemsShape(xs: seq<Json>)
    ensures var r := ParseItems(xs);
      && (r.Ok? <==> forall k :: 0 <= k < |xs| ==> ParseItem(xs[k]).Ok?)
      && (r.Ok? ==> |r.value| == |xs| && forall k :: 0 <= k < |xs| ==> r.value[k] == ParseItem(xs[k]).value)
  {
    if xs != [] {
      ParseItemsShape(xs[1..]);
      assert forall k :: 1 <= k < |xs| ==> xs[k] == xs[1..][k - 1];
    }
  }

  /** A readable item is Accepted exactly when its ignore code is the string `'0'`, and Ignored with that code otherwise. */
  lemma ParseItemStatus(x: Json)
    requires ParseItem(x).Ok?
    ensures var r := ParseItem(x).value;
      var code := x.fields["ignoredMessage"].fields["code"];
      && (r.status.Accepted? <==> code == JStr("0"))
      && (r.status.Ignored? ==> r.status.code == code && r.status.text == x.fields["ignoredMessage"].fields["#text"])
      && r.artist == x.fields["artist"].fields["#text"] && r.track == x.fields["track"].fields["#text"]
      && r.timestamp == x.fields["timestamp"]
  {
  }

  /**
   * The wrapped `__scrobble` as written: the reply items are read before the
   * decorator looks at the status, so an error reply without `scrobbles`
   * raises a KeyError instead of being classified.
   */
  function ScrobbleOutcomeAsWritten(resp: Response): Result<Attempt<seq<ScrobbleResult>>, Failure>
  {
    var results :- ParseScrobbles(resp.body);
    Ok(Attempt(resp.status, resp.body, results))
  }

  /** The wrapped `__scrobble` with the reply read only once the status is 200, so errors reach the decorator. */
  function ScrobbleOutcome(resp: Response): Result<Attempt<seq<ScrobbleResult>>, Failure>
  {
    if resp.status != 200 then Ok(Attempt(resp.status, resp.body, []))
    else
      var results :- ParseScrobbles(resp.body);
      Ok(Attempt(resp.status, resp.body, results))
  }

  /** Every reply is the same reply at every call. */
  function Constant<T>(o: Result<Attempt<T>, Failure>): nat -> Result<Attempt<T>, Failure>
  {
    _ => o
  }

  /**
   * The invalid-session reply (status 403, error 9) to a batch: as written it
   * raises KeyError('scrobbles'); read in the intended order it raises the
   * APIResponseError the decorator is there to produce.
   */
  lemma ErrorReplyAsWritten()
    ensures var body := map["error" := JInt(9), "message" := JStr("Invalid session key")];
      var resp := Response(403, body, 0);
      && Handle(Constant(ScrobbleOutcomeAsWritten(resp)), 1) == (Err(KeyFailure("scrobbles")), 1)
      && Handle(Constant(ScrobbleOutcome(resp)), 1) == (Err(ApiFailure(JInt(9), JStr("Invalid session key"))), 1)
  {
    var body := map["error" := JInt(9), "message" := JStr("Invalid session key")];
    assert "scrobbles" !in body;
    assert 9 in StatusFailure;
  }

  /**
   * With the status checked first, a 200 reply reads the same as the code as
   * written, and every other reply is classified by its error code.
   */
  lemma ScrobbleOutcomeCorrected(resp: Response)
    ensures resp.status == 200 ==> ScrobbleOutcome(resp) == ScrobbleOutcomeAsWritten(resp)
    ensures resp.status != 200 ==> ScrobbleOutcome(resp).Ok? && !Succeeded(ScrobbleOutcome(resp))
    ensures resp.status != 200 && HasCode(resp.body, StatusFailure) ==>
      Handle(Constant(ScrobbleOutcome(resp)), 1) == (Raise(resp.body), 1)
  {
  }

  // ---------------------------------------------------------------------------
  // `scrobble`: batch size and tallies
  // ---------------------------------------------------------------------------

  /** `if num_per_batch > 50: num_per_batch = 50`. */
  function Clamp(n: int): (r: int)
    ensures r <= 50
    ensures n <= 50 ==> r == n
    ensures n > 50 ==> r == 50
  {
    if n > 50 then 50 else n
  }

  /** The counters `accepted` and `ignored`. */
  datatype Tally = Tally(accepted: nat, ignored: nat)

  function Count(results: seq<ScrobbleResult>, accepted: bool): nat
  {
    if results == [] then 0
    else (if results[0].status.Accepted? == accepted then 1 else 0) + Count(results[1..], accepted)
  }

  function Tallied(results: seq<ScrobbleResult>): Tally
  {
    Tally(Count(results, true), Count(results, false))
  }

  /** Every result is counted exactly once: accepted plus ignored is the number of results. */
  lemma {:induction false} TallyTotal(results: seq<ScrobbleResult>)
    ensures Tallied(results).accepted + Tallied(results).ignored == |results|
  {
    if results != [] {
      TallyTotal(results[1..]);
    }
  }

  /** The counters of two stretches of results add up. */
  lemma {:induction false} CountAppend(a: seq<ScrobbleResult>, b: seq<ScrobbleResult>, accepted: bool)
    ensures Count(a + b, accepted) == Count(a, accepted) + Count(b, accepted)
  {
    if a != [] {
      assert (a + b)[0] == a[0] && (a + b)[1..] == a[1..] + b;
      CountAppend(a[1..], b, accepted);
    } else {
      assert a + b == b;
    }
  }
}
