# Last.fm scrobbler core in Dafny

This project models the core of a small Last.fm scrobbler and proves properties of that model. The core has four parts:

- **Tracklist reader** (`utils/reader.py`). It turns a hand-written `.txt` tracklist into listening sessions of scrobbles. Lines are normalised first. `!COMM`, `!INT`, `!ALB` and `!DATE` are directives. Every other line is a track `artist - title`, split at one of three separator dashes and stamped with a timestamp cursor that then advances. A line with no separator, or with several, is resolved through console answers.
- **Records** (`utils/lfm_objects.py`). This covers the `Scrobble` constructor with its validation and album merge, the `get_obj` coercion, the key order of `dict(obj)`, and `get_api_params`, which builds the indexed request parameters of one record.
- **Batching** (`utils/funcs.py`). `loop_batch` cuts a list into batches. `progressbar_batch` and `progressbar` re-yield those batches, or the single items.
- **Client** (`utils/lfm_api.py`). This covers the retryable and failure status sets, the retry decorator, the rate limiter, the request signature, the parameters and reply reading of `track.scrobble`, and the `scrobble` loop with its batch-size clamp and tallies. It also covers `logout`.

## Layout

Each file is one module:

- `common.dfy` (`Common`): `Option`/`Result`, a dynamically typed value `Val` with `str()`, decimal text, ASCII `upper()`, `str.split(c)`, and Python's string order with `sorted()` of a key set.
- `lfm_objects.dfy` (`LfmObjects`): the record objects as values, with their constructors, iteration and request parameters.
- `reader_text.dfy` (`ReaderText`): `readline` normalisation, `find_dashes` and `split_on_dash`.
- `reader_time.dfy` (`ReaderTime`): `__get_timestamp` and `__add_x_minutes`.
- `reader.dfy` (`Reader`): `__txt`. It is specified by a line-step function `Step` and a loop function `Run`. The imperative `ParseTxt` (with `TxtLine` and `ResolveSeparator`) is proved equal to them. Session invariants are proved about `Run`.
- `funcs.dfy` (`Funcs`): `loop_batch` as a loop proved equal to the reference split `Chunks`, plus the progress-bar generators.
- `lfm_protocol.dfy` (`LfmProtocol`): the pure side of the client. This is the status sets, the retry loop as a function `Handle` over the replies, the rate-limit wait `ReadyAt`, the signature pre-image, the batch parameters, reply reading and tallies.
- `lfm_api.dfy` (`LfmApi`): class `LastFM`. Its fields are `session`, `lastRequestAt`, the clock `now` and the log `sent` of requests sent. Its methods run the loops of the source and are proved against the functions above.

Modelling choices:

- **Generators** are methods that return everything they would yield.
- **Console answers** to `input()` are a sequence consumed in order. Running out of answers is the `EOFError` a real console would raise.
- **Server** is a function from the request number to the reply, latency included.
- **`time()`** is the field `now`, in integer milliseconds. `sleep(s)` advances it by `s` seconds.
- **MD5** is an opaque function given to the constructor.
- **Calendar conversion** of pendulum (`local(...).timestamp()`) is a parameter `DateTime -> Option<int>`.
- **`float()`** on the `!INT` argument is a parameter `string -> Option<real>`. The spacing is then an exact real, and `int()` truncates it toward zero (`Trunc`).

Every `!DATE` opens a session and no other line does; there is no rule that opens a session on a gap between tracks. A timestamp token must carry a date, because the regular expression requires a date group before the time. A bare time is rejected (`BareTimeRejected`).

## Model

| member | source | states |
|---|---|---|
| Common.ParseNatToString | utils/lfm_api.py:266-267 | `int(str(n)) == n`: the string positions turn back into the numbers they came from |
| Common.NatToStringInjective | utils/lfm_api.py:266 | distinct positions get distinct decimal names |
| Common.Upper | utils/reader.py:126-140 | `resp.upper()` on ASCII text: same length, each lower-case letter `a`-`z` raised, every other character kept (weaker than Python's full Unicode mapping; see Left out) |
| Common.Split | utils/reader.py:31-32 | `s.split(c)` never returns an empty list |
| Common.Sorted | utils/lfm_api.py:176 | `sorted(keys)` lists exactly the keys of the set, each once |
| Common.SortedFirst | utils/lfm_api.py:176-179 | the sorted keys start with the least key, followed by the sorted rest |
| Common.SortedAscending | utils/lfm_api.py:176 | the sorted keys are strictly ascending in Python's string order |
| LfmObjects.GetObj | utils/lfm_objects.py:60-70 | None gives None; an instance is returned unchanged; a dict is passed as keyword arguments: the result is the object the constructor builds from them, or the constructor's error; a str, or `str(x)` of anything else, is the single constructor argument |
| LfmObjects.NewScrobble | utils/lfm_objects.py:84-101 | an empty artist raises, then an empty track raises; otherwise the record is built iff `get_obj(Artist, artist)` and then `get_obj(Album, album)` of the merged album succeed, and the first of them that fails gives the error; a built record keeps the track, mbid, timestamp, track number and duration, has url '' and the artist object `get_obj` gives; with an album artist (not None, not ''): an `Album` with a different album artist gets that artist, an `Album` with the same one is replaced by the album whose text is `str(album)`, a dict gains `album_artist`, None and a str (or `str(x)`) become the album with that text; without one the album is `get_obj(Album, album)` of the argument |
| LfmObjects.NewScrobbleWithAlbum | utils/lfm_objects.py:90-98 | a str album with an album artist becomes `{'text': album, 'album_artist': ...}` and so the album object with that text and artist |
| LfmObjects.NoAlbumWithAlbumArtist | utils/lfm_objects.py:96 | an album artist without an album yields an album whose text is `str(None)`, i.e. 'None' |
| LfmObjects.DictKeepsDistinctItems | utils/lfm_objects.py:76-78 | `dict(obj)` of items with distinct keys keeps every item, with its value |
| LfmObjects.ArtistIteration | utils/lfm_objects.py:22-24 | an `Artist` iterates as `artist`, `mbid`, with distinct keys |
| LfmObjects.AlbumWithSameArtist | utils/lfm_objects.py:90-96 | an `Album` whose album artist already equals the one passed is not kept: the record's album is a new one whose text is `str(dict(album))`, `{'artist': ..., 'album': ..., 'mbid': ...}`, and whose mbid is None |
| LfmObjects.AlbumTextShape | utils/lfm_objects.py:44-48 | `str(album)` with a non-empty album artist shows `artist`, then `album`, then `mbid`, each as `'key': repr(value)` |
| LfmObjects.AlbumIteration | utils/lfm_objects.py:44-48 | an `Album` iterates as `artist` (unless the album artist is ''), then `album`, `mbid` |
| LfmObjects.ApiParams | utils/lfm_objects.py:120-152 | `get_api_params` succeeds iff the record has an artist object, and yields only keys `name[ind]` of the eight field names |
| LfmObjects.ApiParamsByField | utils/lfm_objects.py:120-152 | each key `name[ind]` is present iff the reference field is (artist, track and timestamp always; album and albumArtist iff there is an album; trackNumber iff not -1; mbid iff not None; duration iff not -1), and then holds the record's value |
| LfmObjects.ApiParamsIndexed | utils/lfm_objects.py:120-152 | every key produced ends in `[ind]` |
| LfmObjects.ApiParamsDisjoint | utils/lfm_objects.py:120-152 | records with different bracket-free indices share no key, so merging their parameters loses nothing |
| ReaderText.Words | utils/reader.py:83 | `line.split()` yields only non-empty words without whitespace |
| ReaderText.Readline | utils/reader.py:81-85 | `readline` yields no more lines than it reads, each non-empty and in normal form (no outer whitespace, single spaces) |
| ReaderText.NormalizeKeepsWords | utils/reader.py:83 | normalising keeps the words of the line and is idempotent |
| ReaderText.WordsOfJoin | utils/reader.py:83 | `' '.join(ws).split() == ws` for words without whitespace |
| ReaderText.NormalizeBlank | utils/reader.py:84 | a line is dropped exactly when it is all whitespace |
| ReaderText.FindIterFacts | utils/reader.py:60 | each `finditer` match is an occurrence of the separator, at or after the start, and matches do not overlap |
| ReaderText.FindIterComplete | utils/reader.py:60 | every occurrence is found unless it overlaps an earlier match |
| ReaderText.SortSpansProperties | utils/reader.py:61 | `indexes.sort()` is a permutation into tuple order |
| ReaderText.FindDashes | utils/reader.py:56-62 | the loop over the three separators, then the sort, computes `Dashes` |
| ReaderText.DashesAreSeparators | utils/reader.py:56-62 | every reported span is 3 characters long and covers one of `' - '`, `' – '`, `' — '` |
| ReaderText.DashesComplete | utils/reader.py:56-62 | every occurrence of a separator is reported, unless it overlaps an earlier match of the same separator, which `finditer` skips (in `a - - b` the second ` - ` shares a space with the first and is not reported) |
| ReaderText.DashesStrictlyIncreasing | utils/reader.py:56-62 | reported spans are strictly increasing by start |
| ReaderText.SplitOnDash | utils/reader.py:73-76 | succeeds iff the index is within `splits`, as Python's indexing allows, negative indices included |
| ReaderText.SplitOnDashReconstructs | utils/reader.py:73-76 | artist + separator + title rebuilds the line |
| ReaderText.SplitOfNormalLine | utils/reader.py:149 | on a normalised line both sides of a split are non-empty |
| ReaderTime.MatchDate | utils/reader.py:25 | a match is a non-empty date group of digits and `/`, a space, and a maximal non-empty time group of digits and `:`, at the start of the token |
| ReaderTime.MatchDateOf | utils/reader.py:25 | a date group, a space and a time group are found as written, whatever follows the time |
| ReaderTime.GetTimestamp | utils/reader.py:24-25 | a token without the `<date> <time>` shape raises (`.groups()` on None) |
| ReaderTime.GetTimestampDefaults | utils/reader.py:31-35 | `M/D H:MM` is converted with the current year and second 0 |
| ReaderTime.GetTimestampFull | utils/reader.py:31-35 | `M/D/Y H:MM:SS` is converted with every field as written |
| ReaderTime.BareTimeRejected | utils/reader.py:25 | a bare `H:MM` is not a date |
| ReaderTime.ToEpochOfNumbers | utils/reader.py:34-35 | digit fields reach the calendar as their decimal values |
| ReaderTime.Trunc | utils/reader.py:160 | `int(x)` truncates toward zero |
| ReaderTime.AdvanceWhole | utils/reader.py:38-40 | a whole number of minutes moves the cursor by exactly that many minutes |
| ReaderTime.AdvanceBounds | utils/reader.py:160 | a non-negative spacing never moves the cursor back, and truncation never passes the exact time |
| Reader.SplitCommand | utils/reader.py:88 | `line.split(' ', 1)`: a space-free command word, and the rest when there is a space, which together rebuild the line |
| Reader.ResolveSound | utils/reader.py:122-146 | the prompt loop only consumes answers; a chosen separator is one `find_dashes` reported for the final line; DELETE consumes at least one answer |
| Reader.ResolveDelete | utils/reader.py:123-128 | DELETE in any letter case drops a line without a separator |
| Reader.ResolveChoose | utils/reader.py:143-146 | an in-range number narrows the splits to that one occurrence |
| Reader.ResolveAnswer | utils/reader.py:122-146 | one prompt, case by case: DELETE, RETYPE with and without a further answer, STOP, a number in range, any other answer asks again |
| Reader.StepComment | utils/reader.py:89-91 | `!COMM` changes nothing and consumes no answer |
| Reader.StepInterval | utils/reader.py:92-94 | `!INT x` sets the spacing to `float(x)` and nothing else; a missing or non-numeric argument raises |
| Reader.StepAlbumClear | utils/reader.py:97-99 | a bare `!ALB` clears the album context and nothing else |
| Reader.StepAlbumSet | utils/reader.py:100-102 | `!ALB text` splits at the first separator (the one with the least start) into album artist and album; no separator raises |
| Reader.FirstDashIsLeast | utils/reader.py:102 | the first reported span starts no later than any other |
| Reader.StepDate | utils/reader.py:103-105 | `!DATE` without a token raises |
| Reader.StepDateOpens | utils/reader.py:103-111 | `!DATE d t` sets the cursor to the parsed time and appends one new empty session starting there, keeping all earlier ones; a bad token raises |
| Reader.TrackRecordShape | utils/reader.py:149-158 | a track record is stamped with the cursor and carries album and album artist exactly while the context is set |
| Reader.StepTrack | utils/reader.py:112-161 | a line with one separator asks nothing; it is split there, stamped with the cursor and appended to the current session; the session end and the cursor both move to `int(ts + increment*60)`; with no session it raises |
| Reader.StepCases | utils/reader.py:87-161 | a line either keeps the sessions and cursor, sets the spacing, opens a session at the new cursor, or appends a track stamped with the cursor |
| Reader.StepKeepsStateOk | utils/reader.py:103-161 | each line keeps every session well formed and changes only the last session or adds one |
| Reader.RunKeepsStateOk | utils/reader.py:87-161 | the whole loop keeps every session well formed |
| Reader.TxtSessionsOk | utils/reader.py:48-162 | every session returned has an end exactly once it has tracks, and its first track is stamped with its start |
| Reader.StepKeepsOrdered | utils/reader.py:92-161 | a line that is not an `!INT` with a negative spacing keeps the sessions chronological |
| Reader.MoveKeepsOrdered | utils/reader.py:92-161 | each kind of state change allowed by `StepCases` keeps the sessions chronological, provided the line sets no negative spacing |
| Reader.AddTrackKeepsOrdered | utils/reader.py:150-161 | appending a track at the cursor keeps its session chronological |
| Reader.RunKeepsOrdered | utils/reader.py:87-161 | when no `!INT` line sets a negative spacing, the loop keeps every session chronological |
| Reader.TxtChronological | utils/reader.py:48-162 | when no `!INT` line of the file sets a negative spacing, the tracks of every returned session are stamped in order, between its start and end |
| Reader.RunStop | utils/reader.py:134-142 | a STOP at any line discards every session read so far |
| Reader.RunLine | utils/reader.py:81-87 | a blank raw line is skipped; any other line is one step on its normalised text |
| Reader.ResolveSeparator | utils/reader.py:122-148 | the `while len(splits) != 1` loop computes `Resolve`, reading the answers in order |
| Reader.TxtLine | utils/reader.py:88-161 | the loop body for one line computes `Step` and says which answers are left |
| Reader.ParseTxt | utils/reader.py:48-162 | `__txt` over the raw lines computes `Txt`, so every property proved of `Txt` holds of it |
| Funcs.PyMod | utils/funcs.py:30 | Python's `%`: the result has the sign of the divisor |
| Funcs.EffectiveSize | utils/funcs.py:30 | a positive batch size is used as is; a negative one acts as 1 |
| Funcs.YieldCondition | utils/funcs.py:30 | `(i+1) % batch_size > 0` fails exactly when the current batch is full |
| Funcs.ChunksFlatten | utils/funcs.py:26-36 | the batches concatenated in order give back the input |
| Funcs.ChunksSizes | utils/funcs.py:26-36 | every batch but the last has `batch_size` items; the last has between 1 and `batch_size` |
| Funcs.ChunksCount | utils/funcs.py:26-36 | there are ceil(n / batch_size) batches, so none for an empty input |
| Funcs.LoopBatch | utils/funcs.py:26-36 | `loop_batch(it, batch_size, True)` yields exactly the batches of `Chunks`, each with the 0-based index of its last item |
| Funcs.AppendIndex | utils/funcs.py:33-34 | each reported index is one less than the items yielded so far |
| Funcs.ProgressbarBatch | utils/funcs.py:6-20 | yields the batches of `loop_batch` in order, and after each reports the running item count, which ends at the input length |
| Funcs.ChunksOfOne | utils/funcs.py:22-24 | batches of size 1 are the items, wrapped one by one |
| Funcs.Progressbar | utils/funcs.py:22-24 | yields the input items one by one, in order |
| LfmProtocol.StatusSetsDisjoint | utils/lfm_api.py:30-48 | no status code is both retried and a failure |
| LfmProtocol.StatusSetsSizes | utils/lfm_api.py:30-48 | the sets hold 3 and 12 distinct codes |
| LfmProtocol.Raise | utils/lfm_api.py:161-169 | raising always fails; it is an API error iff the body has `error` and `message`, otherwise the KeyError |
| LfmProtocol.Verdict | utils/lfm_api.py:157-168 | a call is retried iff its reply is a non-200 with a retryable code; a value is returned iff the status is 200, the value the wrapped function returned |
| LfmProtocol.HandleFromShape | utils/lfm_api.py:155-169 | from any point of the loop: the number of calls stays within `retry`; all calls but the last were retried; a value iff the last call got a 200; retryable replies to all calls raise the last reply |
| LfmProtocol.HandleShape | utils/lfm_api.py:152-171 | at most `retry` calls (at least one when `retry > 0`); `retry == 0` fails with `resp_json` unbound; only retryable replies are repeated; a value iff the last call got a 200, and it is that call's value |
| LfmProtocol.HandleFailureNoRetry | utils/lfm_api.py:160-161 | a failure code raises on its first occurrence, after one call |
| LfmProtocol.HandleUnknownNoRetry | utils/lfm_api.py:167-168 | a code in neither set raises at once, after one call |
| LfmProtocol.HandleExhausted | utils/lfm_api.py:156-169 | retryable replies to all `retry` calls raise the last reply, after exactly `retry` calls |
| LfmProtocol.HandleStopsEarly | utils/lfm_api.py:156-168 | the loop ends before `retry` calls only on a reply that is not retryable |
| LfmProtocol.ReadyAtBounds | utils/lfm_api.py:141-146 | the request goes out no earlier than one second after the last and no earlier than the call, after whole sleeps of 0.4 s, and with no sleep more than needed |
| LfmProtocol.PreImageFirst | utils/lfm_api.py:174-183 | the signed string is the least key with its value, followed by the signed string of the other parameters; insertion order plays no part |
| LfmProtocol.PreImageSingle | utils/lfm_api.py:174-183 | a single parameter signs as key, value, secret |
| LfmProtocol.RecordParamsDisjoint | utils/lfm_api.py:268-269 | records at different batch positions contribute disjoint keys |
| LfmProtocol.IndexedAdd | utils/lfm_api.py:268-269 | merging one more position adds exactly that record's parameters |
| LfmProtocol.BatchParamsShape | utils/lfm_api.py:260-270 | the record at position k contributes exactly its parameters indexed `str(k)`; the header is kept; no other key appears; `format` and `api_sig` are not signed |
| LfmProtocol.BatchParamsRecords | utils/lfm_api.py:266-269 | every record parameter appears with its value |
| LfmProtocol.BatchParamsOthers | utils/lfm_api.py:260-270 | the only other keys are the header's, with their values; `format` is not signed |
| LfmProtocol.Get | utils/lfm_api.py:274-285 | `x[key]` succeeds iff `x` is an object with that key, giving its value |
| LfmProtocol.Iterate | utils/lfm_api.py:274 | iterating a list yields its items |
| LfmProtocol.ParseItemsShape | utils/lfm_api.py:273-288 | one result per reply item, in reply order, each the reading of its item; success iff every item can be read |
| LfmProtocol.ParseItemStatus | utils/lfm_api.py:275-286 | an item is Accepted iff its ignore code is `'0'`, otherwise Ignored with that code and text; artist, track and timestamp are copied |
| LfmProtocol.ErrorReplyAsWritten | utils/lfm_api.py:272-274 | the invalid-session reply raises KeyError('scrobbles') as written, before the status check of lines 158-161 sees it, and the APIResponseError in the corrected order |
| LfmProtocol.ScrobbleOutcomeCorrected | utils/lfm_api.py:157-168 | reading the reply only on status 200 changes nothing for a 200 and lets every other reply reach the decorator, where a failure code raises |
| LfmProtocol.TallyTotal | utils/lfm_api.py:305-320 | accepted + ignored equals the number of results |
| LfmProtocol.CountAppend | utils/lfm_api.py:311-320 | the counts of consecutive batches add up |
| LfmApi.ResolveKeys | utils/lfm_api.py:61-74 | key and secret come from the arguments when both are given, otherwise from the configuration, which must hold both |
| LfmApi.SavedSession | utils/lfm_api.py:82-84 | the saved profile is a session iff it has a non-empty `SESSION_KEY` |
| LfmApi.LeastKey | utils/lfm_api.py:176 | one pass over the keys finds the least |
| LfmApi.SortedKeys | utils/lfm_api.py:176 | `sorted(list(params.keys()))` computes `Sorted` |
| LfmApi.SortedNames | utils/lfm_api.py:266 | `sorted(str(x) for x in range(n))` lists decimal names of positions below n, strictly ascending |
| LfmApi.AllPositionsDone | utils/lfm_api.py:266-269 | after the loop every position of the batch has been merged in |
| LfmApi.BuildBatchParams | utils/lfm_api.py:260-269 | the loop over positions in string order builds `BatchParams`, and fails iff some record has no artist object |
| LfmApi.TallyBatch | utils/lfm_api.py:313-320 | the loop over one batch's results keeps the counters equal to the tally of all results so far |
| LfmApi.LastFM.constructor | utils/lfm_api.py:60-96 | with `login=False`: the client is logged in iff the saved profile has a session key; nothing was requested yet |
| LfmApi.LastFM.User | utils/lfm_api.py:114-119 | the saved user name, or 'No user logged in.' |
| LfmApi.LastFM.Send | utils/lfm_api.py:137-149 | sleeps until a second has passed since the last request, sends with `format=json` at that time, gets the server's next reply, and records that time as the last request time; the client's invariant that all requests sent are at least a second apart is kept |
| LfmApi.LastFM.CreateSignature | utils/lfm_api.py:174-183 | the signature is the MD5 of the sorted key/value pairs followed by the secret |
| LfmApi.LastFM.HandleReqError | utils/lfm_api.py:152-171 | the result and the number of requests are those of `Handle` on the server's replies; every request sent is the same request; the session is unchanged |
| LfmApi.LastFM.ScrobbleBatch | utils/lfm_api.py:258-290 | posts the signed batch parameters once, with `Handle` deciding the result on the reply read in the corrected order (status first, see Findings); a record without an artist ends the call before any request |
| LfmApi.LastFM.ScrobbleAll | utils/lfm_api.py:292-322 | with no session it raises before any request, and without a saved user the KeyError; a zero batch size with scrobbles is the ZeroDivisionError; otherwise the batches of `loop_batch` (size clamped to 50) are posted in order: the results, the number of requests and the error are those of `Posted` on the server's replies (read in the corrected order), request k carries the signed parameters of batch k, and the counters tally the results |
| LfmApi.LastFM.PostNext | utils/lfm_api.py:311-312 | one turn of the loop: the batch is posted as the next request, and the outcome of the rest of the run is the batch's reply followed by the run from the next batch |
| LfmApi.PostedByFirstFailure | utils/lfm_api.py:311-314 | `Posted` collects the replies of the batches before the first failing one, in order, and ends with that batch's error (a batch without artists sends nothing) or with none when every batch goes through |
| LfmApi.PostedCount | utils/lfm_api.py:311-312 | the run sends at most one request per batch, and exactly one per batch when nothing fails |
| LfmApi.WiresAt | utils/lfm_api.py:260-272 | the k-th wire dict is batch k's signed parameters with `format=json` |
| LfmApi.CarriesExtend | utils/lfm_api.py:311-312 | posting the next batch with its wire dict keeps every request matched to its batch |
| LfmApi.LastFM.Logout | utils/lfm_api.py:248-256 | with a session it drops it and returns `(True, user)` (raising KeyError when the profile has no user); without one it returns `(False, session name)` and changes nothing |

## Left out

- HTTP transport (`requests.get`/`post`, `resp.json()`): the server is an oracle from request number to decoded reply.
- The login handshake (`login`, `__get_login_token`, `__get_session_from_token`, `__get_session_auth_response`): it needs the browser, a prompt and the TOML file. The constructor is modelled with `login=False`.
- `webbrowser`, `print` and the text of the `input()` prompts. `highlight_dashes` only builds prompt text, so it is left out.
- TOML configuration I/O (`get_configs`, `set_configs`): the constructor takes the already resolved key and secret and the saved profile as a map; `ResolveKeys` models how the key and secret are chosen from the arguments or the configuration map, and its exception. `Logout` does not write the profile back.
- The log file of `scrobble`: only the counters are modelled.
- Progress-bar rendering (`show`, its time estimate and the output stream).
- MD5 (RFC 1321): an opaque function. Only its input, the pre-image, is modelled.
- The time zone and calendar of pendulum: a parameter. `from_timestamp` for a session's `start`/`end` is kept as the epoch second.
- Infinite and NaN spacings: `float()` also accepts `inf`, `nan` and `1e400`. The `!INT` line then succeeds, and the next track line fails in `int(ts + increment*60)` (OverflowError for an infinity, ValueError for NaN) after its record was appended. `parseFloat` yields only finite reals, so this failure is not modelled.
- Floating point: `float()` and `int(ts + x*60)` are computed on exact reals, so binary rounding is not modelled.
- The CSV reader: the source is a stub (`pass`). `Reader.__init__` file checks and `read()` dispatch are file I/O.
- Mutation in place of an `Album` or dict passed to the `Scrobble` constructor: the merge is modelled on values, so aliasing is not captured.
- `utils/exceptions.py` is the `Failure` datatype. `scrobbler.py` and `example-prog.py` are not part of this model.
- LfmApi.LastFM.HandleReqError: the `sleep(timeout)` before a retry advances the clock. Its `print` is not modelled, and the clock is stated only not to run backwards.
- Common.Upper: only `a`-`z` are raised. Python's `str.upper()` also maps other letters, some to longer strings (`'ß'.upper() == 'SS'`, `'ſtop'.upper() == 'STOP'`), so such answers compare differently in the model.
- Reader.ResolveAnswer: the answer comparisons use the ASCII `Upper` (so `'ſtop'` is not STOP here), and `isnumeric()` is stated for ASCII digits only. In Python `'²'.isnumeric()` holds and `int('²')` raises ValueError, and `'٣'` is numeric and parses as 3; the model treats both as an answer that asks again.
- Funcs.LoopBatch: requires `batchSize != 0 || |items| == 0`. A zero size with items is Python's ZeroDivisionError in `(i+1) % batch_size`; `LfmApi.LastFM.ScrobbleAll` models it as the error `ZeroBatchSize` before any request.
- LfmApi.LastFM.ScrobbleBatch: the reply is read in the corrected order (status checked before `msg['scrobbles']`), not as written; the as-written order is modelled and shown under Findings.
- LfmApi.LastFM.ScrobbleAll: uses the corrected reply order of `ScrobbleBatch`.
- Request parameters are the `params` dict handed to `requests`; the URL encoding, which drops keys whose value is `None`, is not modelled.
- Common.Quoted: `repr` of a str is always written with single quotes and no escaping; Python switches to double quotes for a text containing `'` and escapes backslashes and control characters.
- Reader.StepTrack: stated for records with a non-empty album artist whenever the album context is set. An `!ALB` text whose separator is at its very start cannot occur on a normalised line.

## Findings

| source | as written | input that shows it | evidently intended | confidence | as-written member | corrected member |
|---|---|---|---|---|---|---|
| utils/lfm_api.py:272-274 with utils/lfm_api.py:158-161 | `__scrobble` reads `msg['scrobbles']` before returning to the `__handle_req_error` wrapper, which is what checks the status | a 403 reply `{"error": 9, "message": "Invalid session key"}` to a batch raises `KeyError('scrobbles')` | the wrapper sees the non-200 status and raises `APIResponseError(9, ...)` as a failure code (retrying a retryable one) | high (not executed) | LfmProtocol.ErrorReplyAsWritten (on LfmProtocol.ScrobbleOutcomeAsWritten) | LfmProtocol.ScrobbleOutcomeCorrected (on LfmProtocol.ScrobbleOutcome, which LfmApi.LastFM.ScrobbleBatch uses) |
