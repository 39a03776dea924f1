/**
 * The Last.fm record types of utils/lfm_objects.py, as values.
 *
 * `LFMObj` is a labelled value with an optional MusicBrainz id; `Artist`,
 * `Album` and `Track` are `LFMObj`s whose text is iterated under the key
 * 'artist', 'album' or 'name'. A `Scrobble` is a `Track` with a timestamp, a
 * track number and a duration, and renders itself as the indexed request
 * parameters of a `track.scrobble` call.
 */
module LfmObjects {
  import opened Common

  /** `LFMObj(text, mbid, text_alt, mbid_alt)`. */
  datatype LfmObj = LfmObj(text: Val, mbid: Val, textAlt: string, mbidAlt: string)

  /** `Album`: an `LFMObj` labelled 'album', plus the album artist. */
  datatype Album = Album(base: LfmObj, albumArtist: Val)

  /** `Scrobble`: the `Track` fields (its own `LFMObj` labelled 'name', url, artist, album) plus timestamp, track number and duration. */
  datatype Scrobble = Scrobble(
    base: LfmObj,
    url: string,
    artist: Option<LfmObj>,
    album: Option<Album>,
    timestamp: Val,
    trackNo: Val,
    duration: Val)

  /** What a caller may hand to `get_obj`: None, a str, a dict of keyword arguments, an instance, or any other value (known by its `str`). */
  datatype Arg<T> = ArgNone | ArgStr(s: string) | ArgDict(kwargs: map<string, Val>) | ArgObj(obj: T) | ArgOther(repr: string)

  /** The exceptions raised while building or rendering a record. */
  datatype ObjError =
    | EmptyArtistName        // 'Artist name cannot be empty for a scrobble!'
    | EmptyTrackName         // 'Track name cannot be empty for a scrobble!'
    | UnexpectedKeyword      // TypeError from `cls(**param)` with a key the constructor does not take
    | NoArtistObject         // AttributeError: `get_api_params` on a record whose artist is None

  /** `Artist(text, mbid)`. */
  function NewArtist(text: Val, mbid: Val): LfmObj
  {
    LfmObj(text, mbid, "artist", "")
  }

  /** `Album(text, mbid, album_artist)`. */
  function NewAlbum(text: Val, mbid: Val, albumArtist: Val): Album
  {
    Album(LfmObj(text, mbid, "album", ""), albumArtist)
  }

  function GetOr(kwargs: map<string, Val>, key: string, default: Val): Val
  {
    if key in kwargs then kwargs[key] else default
  }

  /** `Artist(**kwargs)`. */
  function ArtistFromKwargs(kwargs: map<string, Val>): Result<LfmObj, ObjError>
  {
    if kwargs.Keys <= {"text", "mbid"}
    then Ok(NewArtist(GetOr(kwargs, "text", Str("")), GetOr(kwargs, "mbid", NoneVal)))
    else Err(UnexpectedKeyword)
  }

  /** `Album(**kwargs)`. */
  function AlbumFromKwargs(kwargs: map<string, Val>): Result<Album, ObjError>
  {
    if kwargs.Keys <= {"text", "mbid", "album_artist"}
    then Ok(NewAlbum(GetOr(kwargs, "text", Str("")), GetOr(kwargs, "mbid", NoneVal), GetOr(kwargs, "album_artist", NoneVal)))
    else Err(UnexpectedKeyword)
  }

  function ArtistFromText(s: string): LfmObj { NewArtist(Str(s), NoneVal) }

  function AlbumFromText(s: string): Album { NewAlbum(Str(s), NoneVal, NoneVal) }

  /**
   * `get_obj(cls, param)` inside `Track.__init__`: None stays None, an instance is
   * kept as it is, a dict is expanded into keyword arguments, and a str or any
   * other value becomes the constructor's single (text) argument.
   */
  function GetObj<T>(param: Arg<T>, fromKwargs: map<string, Val> -> Result<T, ObjError>, fromText: string -> T): (r: Result<Option<T>, ObjError>)
    ensures param.ArgNone? <==> r == Ok(None)
    ensures param.ArgObj? ==> r == Ok(Some(param.obj))
    ensures param.ArgDict? ==> (r.Ok? <==> fromKwargs(param.kwargs).Ok?)
    ensures param.ArgDict? && r.Ok? ==> r.value == Some(fromKwargs(param.kwargs).value)
    ensures param.ArgDict? && r.Err? ==> r.error == fromKwargs(param.kwargs).error
    ensures param.ArgStr? ==> r == Ok(Some(fromText(param.s)))
    ensures param.ArgOther? ==> r == Ok(Some(fromText(param.repr)))
  {
    match param
    case ArgNone => Ok(None)
    case ArgObj(o) => Ok(Some(o))
    case ArgDict(kw) => (match fromKwargs(kw) case Ok(o) => Ok(Some(o)) case Err(e) => Err(e))
    case ArgStr(s) => Ok(Some(fromText(s)))
    case ArgOther(s) => Ok(Some(fromText(s)))
  }

  /**
   * `str(d)` of a dict built from `items`: `{'k1': repr(v1), 'k2': repr(v2)}`,
   * in the order of the items.
   */
  function DictText(items: seq<(string, Val)>): string
  {
    "{" + Entries(items) + "}"
  }

  /** One entry of a dict display: `'k': repr(v)`. */
  function Entry(key: string, v: Val): string
  {
    Quoted(Str(key)) + ": " + Quoted(v)
  }

  function Entries(items: seq<(string, Val)>): string
  {
    if items == [] then ""
    else if |items| == 1 then Entry(items[0].0, items[0].1)
    else Entry(items[0].0, items[0].1) + ", " + Entries(items[1..])
  }

  /** `str(album)` of an `Album` instance: the dict of its items. */
  function AlbumText(a: Album): string
  {
    DictText(AlbumItems(a))
  }

  /** The dict the merge builds from an album argument it cannot update: `{'text': str(album), 'album_artist': album_artist}`. */
  function Wrapped(text: string, albumArtist: Val): Arg<Album>
  {
    ArgDict(map["text" := Str(text), "album_artist" := albumArtist])
  }

  /**
   * The album merge of `Scrobble.__init__`: when an album artist is given (not
   * None, not empty) an `Album` whose album artist differs gets it written in,
   * a dict gets an 'album_artist' entry, and anything else (an `Album` that
   * already has that album artist included) becomes
   * `{'text': str(album), 'album_artist': album_artist}`.
   */
  function MergeAlbum(album: Arg<Album>, albumArtist: Val): Arg<Album>
  {
    if albumArtist != Str("") && albumArtist != NoneVal then
      match album
      case ArgObj(a) =>
        if a.albumArtist != albumArtist then ArgObj(a.(albumArtist := albumArtist))
        else Wrapped(AlbumText(a), albumArtist)
      case ArgDict(kw) => ArgDict(kw["album_artist" := albumArtist])
      case ArgNone => Wrapped("None", albumArtist)
      case ArgStr(s) => Wrapped(s, albumArtist)
      case ArgOther(s) => Wrapped(s, albumArtist)
    else album
  }

  /** `Scrobble(artist, track, timestamp, album, track_no, mbid, album_artist, duration)`. */
  function NewScrobble(artist: Arg<LfmObj>, track: Val, timestamp: Val, album: Arg<Album>,
                       trackNo: Val, mbid: Val, albumArtist: Val, duration: Val): (r: Result<Scrobble, ObjError>)
    ensures artist == ArgStr("") ==> r == Err(EmptyArtistName)
    ensures artist != ArgStr("") && track == Str("") ==> r == Err(EmptyTrackName)
    ensures r.Ok? ==> artist != ArgStr("") && track != Str("")
    ensures artist != ArgStr("") && track != Str("") ==>
              (r.Ok? <==> GetObj(artist, ArtistFromKwargs, ArtistFromText).Ok?
                          && GetObj(MergeAlbum(album, albumArtist), AlbumFromKwargs, AlbumFromText).Ok?)
    ensures artist != ArgStr("") && track != Str("") && GetObj(artist, ArtistFromKwargs, ArtistFromText).Err? ==>
              r == Err(GetObj(artist, ArtistFromKwargs, ArtistFromText).error)
    ensures artist != ArgStr("") && track != Str("") && GetObj(artist, ArtistFromKwargs, ArtistFromText).Ok?
            && GetObj(MergeAlbum(album, albumArtist), AlbumFromKwargs, AlbumFromText).Err? ==>
              r == Err(GetObj(MergeAlbum(album, albumArtist), AlbumFromKwargs, AlbumFromText).error)
    ensures r.Ok? ==> r.value.artist == GetObj(artist, ArtistFromKwargs, ArtistFromText).value && r.value.url == ""
    ensures r.Ok? && (albumArtist == Str("") || albumArtist == NoneVal) ==>
              r.value.album == GetObj(album, AlbumFromKwargs, AlbumFromText).value
    ensures r.Ok? ==> (r.value.base.text == track && r.value.base.mbid == mbid && r.value.timestamp == timestamp &&
                       r.value.trackNo == trackNo && r.value.duration == duration)
    ensures r.Ok? && albumArtist != Str("") && albumArtist != NoneVal ==>
              r.value.album.Some? && r.value.album.value.albumArtist == albumArtist
    ensures r.Ok? && (albumArtist == Str("") || albumArtist == NoneVal) ==> (r.value.album.Some? <==> !album.ArgNone?)
    ensures r.Ok? && albumArtist != Str("") && albumArtist != NoneVal ==>
              var al := r.value.album.value;
              && (album.ArgNone? ==> al == NewAlbum(Str("None"), NoneVal, albumArtist))
              && (album.ArgStr? ==> al == NewAlbum(Str(album.s), NoneVal, albumArtist))
              && (album.ArgOther? ==> al == NewAlbum(Str(album.repr), NoneVal, albumArtist))
              && (album.ArgObj? && album.obj.albumArtist != albumArtist ==> al == album.obj.(albumArtist := albumArtist))
              && (album.ArgObj? && album.obj.albumArtist == albumArtist ==> al == NewAlbum(Str(AlbumText(album.obj)), NoneVal, albumArtist))
              && (album.ArgDict? ==> var kw := album.kwargs["album_artist" := albumArtist];
                    AlbumFromKwargs(kw).Ok? && al == AlbumFromKwargs(kw).value)
  {
    if artist == ArgStr("") then Err(EmptyArtistName)
    else if track == Str("") then Err(EmptyTrackName)
    else
      var merged := MergeAlbum(album, albumArtist);
      match GetObj(artist, ArtistFromKwargs, ArtistFromText)
      case Err(e) => Err(e)
      case Ok(a) =>
        match GetObj(merged, AlbumFromKwargs, AlbumFromText)
        case Err(e) => Err(e)
        case Ok(al) => Ok(Scrobble(LfmObj(track, mbid, "name", ""), "", a, al, timestamp, trackNo, duration))
  }

  /** A str album with an album artist always yields an album with that text and artist: the branch the track-list reader takes. */
  lemma NewScrobbleWithAlbum(artist: string, track: string, timestamp: int, album: string, albumArtist: string)
    requires artist != "" && track != "" && albumArtist != ""
    ensures NewScrobble(ArgStr(artist), Str(track), Int(timestamp), ArgStr(album), Int(-1), NoneVal, Str(albumArtist), Int(-1))
         == Ok(Scrobble(LfmObj(Str(track), NoneVal, "name", ""), "", Some(NewArtist(Str(artist), NoneVal)),
                        Some(NewAlbum(Str(album), NoneVal, Str(albumArtist))), Int(timestamp), Int(-1), Int(-1)))
  {
    var kw := map["text" := Str(album), "album_artist" := Str(albumArtist)];
    assert kw.Keys == {"text", "album_artist"};
  }

  /** With an album artist but no album, the album's text is `str(None)`, i.e. 'None'. */
  lemma NoAlbumWithAlbumArtist(artist: string, track: string, albumArtist: string)
    requires artist != "" && track != "" && albumArtist != ""
    ensures var r := NewScrobble(ArgStr(artist), Str(track), Int(0), ArgNone, Int(-1), NoneVal, Str(albumArtist), Int(-1));
      r.Ok? && r.value.album == Some(NewAlbum(Str("None"), NoneVal, Str(albumArtist)))
  {
    var kw := map["text" := Str("None"), "album_artist" := Str(albumArtist)];
    assert kw.Keys == {"text", "album_artist"};
  }

  /**
   * An `Album` that already carries the album artist is not updated but
   * wrapped: its text becomes the display of the whole album dict, and its
   * MusicBrainz id is lost.
   */
  lemma AlbumWithSameArtist(artist: string, track: string, text: Val, mbid: Val, albumArtist: string)
    requires artist != "" && track != "" && albumArtist != ""
    ensures var r := NewScrobble(ArgStr(artist), Str(track), Int(0), ArgObj(NewAlbum(text, mbid, Str(albumArtist))),
                                 Int(-1), NoneVal, Str(albumArtist), Int(-1));
      var shown := "{" + Entry("artist", Str(albumArtist)) + ", " + Entry("album", text) + ", " + Entry("mbid", mbid) + "}";
      r.Ok? && r.value.album == Some(NewAlbum(Str(shown), NoneVal, Str(albumArtist)))
  {
    AlbumTextShape(NewAlbum(text, mbid, Str(albumArtist)));
    var kw := map["text" := Str(AlbumText(NewAlbum(text, mbid, Str(albumArtist)))), "album_artist" := Str(albumArtist)];
    assert kw.Keys == {"text", "album_artist"};
  }

  /** `str(album)` of an album with an album artist shows it, then the text, then the mbid. */
  lemma AlbumTextShape(a: Album)
    requires a.albumArtist != Str("") && a.base.textAlt == "album" && a.base.mbidAlt == ""
    ensures AlbumText(a) == "{" + Entry("artist", a.albumArtist) + ", " + Entry("album", a.base.text) + ", " + Entry("mbid", a.base.mbid) + "}"
  {
    var items := AlbumItems(a);
    assert items == [("artist", a.albumArtist), ("album", a.base.text), ("mbid", a.base.mbid)];
    var e1, e2, e3 := Entry("artist", a.albumArtist), Entry("album", a.base.text), Entry("mbid", a.base.mbid);
    assert Entries(items[1..]) == e2 + ", " + e3;
    assert Entries(items) == e1 + ", " + (e2 + ", " + e3);
    Flat(AlbumText(a), "{", e1, ", ", e2, e3, "}");
  }

  lemma Flat<T>(r: seq<T>, open: seq<T>, x: seq<T>, sep: seq<T>, y: seq<T>, z: seq<T>, close: seq<T>)
    requires r == open + (x + sep + (y + sep + z)) + close
    ensures r == open + x + sep + y + sep + z + close
  {
  }

  // ---------------------------------------------------------------------------
  // Iteration: `dict(obj)`

  function TextKey(o: LfmObj): string { if o.textAlt != "" then o.textAlt else "text" }

  function MbidKey(o: LfmObj): string { if o.mbidAlt != "" then o.mbidAlt else "mbid" }

  /** `LFMObj.__iter__`: the text under its display key, then the mbid under its display key. */
  function Items(o: LfmObj): seq<(string, Val)>
  {
    [(TextKey(o), o.text), (MbidKey(o), o.mbid)]
  }

  /** `Album.__iter__`: ('artist', album_artist) first unless the album artist is '', then the `LFMObj` items. */
  function AlbumItems(a: Album): seq<(string, Val)>
  {
    (if a.albumArtist != Str("") then [("artist", a.albumArtist)] else []) + Items(a.base)
  }

  function Keys(items: seq<(string, Val)>): seq<string>
  {
    seq(|items|, i requires 0 <= i < |items| => items[i].0)
  }

  predicate DistinctKeys(items: seq<(string, Val)>)
  {
    forall i, j :: 0 <= i < j < |items| ==> items[i].0 != items[j].0
  }

  /** `dict(pairs)`: a later pair overwrites an earlier one with the same key. */
  function Dict(items: seq<(string, Val)>): map<string, Val>
  {
    if items == [] then map[] else Dict(items[..|items| - 1])[items[|items| - 1].0 := items[|items| - 1].1]
  }

  /** With distinct keys, `dict(obj)` keeps every item the object yields. */
  lemma {:induction false} DictKeepsDistinctItems(items: seq<(string, Val)>)
    requires DistinctKeys(items)
    ensures |Dict(items)| == |items|
    ensures forall i :: 0 <= i < |items| ==> items[i].0 in Dict(items) && Dict(items)[items[i].0] == items[i].1
  {
    if items != [] {
      var init := items[..|items| - 1];
      DictKeepsDistinctItems(init);
      var last := items[|items| - 1];
      assert last.0 !in Dict(init) by {
        if last.0 in Dict(init) {
          DictKeysFrom(init, last.0);
        }
      }
    }
  }

  lemma {:induction false} DictKeysFrom(items: seq<(string, Val)>, k: string)
    requires k in Dict(items)
    ensures exists i :: 0 <= i < |items| && items[i].0 == k
  {
    var last := items[|items| - 1];
    if last.0 != k {
      DictKeysFrom(items[..|items| - 1], k);
      var i :| 0 <= i < |items| - 1 && items[..|items| - 1][i].0 == k;
      assert items[i].0 == k;
    }
  }

  /** An `Artist` iterates as ('artist', text), ('mbid', mbid). */
  lemma ArtistIteration(text: Val, mbid: Val)
    ensures Keys(Items(NewArtist(text, mbid))) == ["artist", "mbid"]
    ensures DistinctKeys(Items(NewArtist(text, mbid)))
  {
  }

  /** An `Album` iterates as ('artist', album_artist) when that is not '', then ('album', text), ('mbid', mbid). */
  lemma AlbumIteration(text: Val, mbid: Val, albumArtist: Val)
    ensures Keys(AlbumItems(NewAlbum(text, mbid, albumArtist)))
         == (if albumArtist != Str("") then ["artist"] else []) + ["album", "mbid"]
    ensures DistinctKeys(AlbumItems(NewAlbum(text, mbid, albumArtist)))
  {
  }

  // ---------------------------------------------------------------------------
  // Request parameters

  /** `f'{name}[{ind}]'`. */
  function Key(name: string, ind: string): string
  {
    name + "[" + ind + "]"
  }

  predicate NoBrackets(s: string) { '[' !in s && ']' !in s }

  /** The field names `get_api_params` can emit. */
  const FieldNames: set<string> := {"artist", "track", "timestamp", "album", "trackNumber", "mbid", "albumArtist", "duration"}

  /** The key ends in `[ind]`. */
  predicate EndsWithIndex(k: string, ind: string)
  {
    |k| >= |ind| + 2 && k[|k| - |ind| - 2..] == "[" + ind + "]"
  }

  /**
   * Reference definition of one parameter: the value `get_api_params` puts
   * under `name[ind]`, or None when the field is left out (no album; track
   * number or duration equal to the sentinel -1; mbid None).
   */
  function Field(rec: Scrobble, name: string): Option<Val>
    requires rec.artist.Some?
  {
    if name == "artist" then Some(rec.artist.value.text)
    else if name == "track" then Some(rec.base.text)
    else if name == "timestamp" then Some(rec.timestamp)
    else if name == "album" then (if rec.album.Some? then Some(rec.album.value.base.text) else None)
    else if name == "trackNumber" then (if rec.trackNo != Int(-1) then Some(rec.trackNo) else None)
    else if name == "mbid" then (if rec.base.mbid != NoneVal then Some(rec.base.mbid) else None)
    else if name == "albumArtist" then (if rec.album.Some? then Some(rec.album.value.albumArtist) else None)
    else if name == "duration" then (if rec.duration != Int(-1) then Some(rec.duration) else None)
    else None
  }

  /** `Scrobble.get_api_params(ind)`: the dict filled key by key. */
  function ApiParams(rec: Scrobble, ind: string): (r: Result<map<string, Val>, ObjError>)
    requires NoBrackets(ind)
    ensures r.Ok? <==> rec.artist.Some?
    ensures r.Ok? ==> r.value.Keys <= KeySet(ind)
  {
    if rec.artist.None? then Err(NoArtistObject)
    else
      var p := map[Key("artist", ind) := rec.artist.value.text];
      var p := p[Key("track", ind) := rec.base.text];
      var p := p[Key("timestamp", ind) := rec.timestamp];
      var p := if rec.album.Some? then p[Key("album", ind) := rec.album.value.base.text] else p;
      var p := if rec.trackNo != Int(-1) then p[Key("trackNumber", ind) := rec.trackNo] else p;
      var p := if rec.base.mbid != NoneVal then p[Key("mbid", ind) := rec.base.mbid] else p;
      var p := if rec.album.Some? then p[Key("albumArtist", ind) := rec.album.value.albumArtist] else p;
      var p := if rec.duration != Int(-1) then p[Key("duration", ind) := rec.duration] else p;
      Ok(p)
  }

  /** The keys `get_api_params(ind)` may produce. */
  function KeySet(ind: string): set<string>
  {
    set name | name in FieldNames :: Key(name, ind)
  }

  /**
   * `get_api_params` agrees with the field-by-field reference: `name[ind]` is
   * present exactly when the field is (album and albumArtist iff there is an
   * album; trackNumber iff the track number is not -1; mbid iff it is not None;
   * duration iff it is not -1) and then holds the record's value.
   */
  lemma ApiParamsByField(rec: Scrobble, ind: string, name: string)
    requires NoBrackets(ind) && rec.artist.Some? && name in FieldNames
    ensures var p := ApiParams(rec, ind).value;
      (Key(name, ind) in p <==> Field(rec, name).Some?) &&
      (Key(name, ind) in p ==> p[Key(name, ind)] == Field(rec, name).value)
  {
    KeyAgainstFields(name, ind);
  }

  /** The key of a field name differs from the key of every other field name. */
  lemma KeyAgainstFields(name: string, ind: string)
    requires name in FieldNames
    ensures name != "artist" ==> Key(name, ind) != Key("artist", ind)
    ensures name != "track" ==> Key(name, ind) != Key("track", ind)
    ensures name != "timestamp" ==> Key(name, ind) != Key("timestamp", ind)
    ensures name != "album" ==> Key(name, ind) != Key("album", ind)
    ensures name != "trackNumber" ==> Key(name, ind) != Key("trackNumber", ind)
    ensures name != "mbid" ==> Key(name, ind) != Key("mbid", ind)
    ensures name != "albumArtist" ==> Key(name, ind) != Key("albumArtist", ind)
    ensures name != "duration" ==> Key(name, ind) != Key("duration", ind)
  {
    KeysDistinct(ind);
  }

  /** Every key of `get_api_params(ind)` ends in `[ind]`. */
  lemma ApiParamsIndexed(rec: Scrobble, ind: string)
    requires NoBrackets(ind) && rec.artist.Some?
    ensures forall k :: k in ApiParams(rec, ind).value ==> EndsWithIndex(k, ind)
  {
    KeysDistinct(ind);
  }

  lemma KeyDistinct(n1: string, n2: string, ind: string)
    requires n1 != n2 && NoBrackets(n1) && NoBrackets(n2)
    ensures Key(n1, ind) != Key(n2, ind)
  {
    if |n1| == |n2| {
      assert Key(n1, ind)[..|n1|] == n1;
      assert Key(n2, ind)[..|n2|] == n2;
    }
  }

  lemma KeyEndsWithIndex(name: string, ind: string)
    ensures EndsWithIndex(Key(name, ind), ind)
  {
    var k := Key(name, ind);
    assert k[|k| - |ind| - 2..] == "[" + ind + "]";
  }

  lemma KeysDistinct(ind: string)
    ensures forall n1, n2 :: n1 in FieldNames && n2 in FieldNames && n1 != n2 ==> Key(n1, ind) != Key(n2, ind)
    ensures forall n :: n in FieldNames ==> EndsWithIndex(Key(n, ind), ind)
  {
    forall n1, n2 | n1 in FieldNames && n2 in FieldNames && n1 != n2 ensures Key(n1, ind) != Key(n2, ind) {
      KeyDistinct(n1, n2, ind);
    }
    forall n | n in FieldNames ensures EndsWithIndex(Key(n, ind), ind) {
      KeyEndsWithIndex(n, ind);
    }
  }

  /**
   * No key ends in both `[i]` and `[j]` for different bracket-free indices, so
   * the parameter dicts of distinct positions are disjoint and merging them
   * loses nothing.
   */
  /** If a key ends in both `[i]` and `[j]` with `j` the longer, the `[` before `i` lies inside `j`. */
  lemma LongerSuffixHasBracket(k: string, i: string, j: string)
    requires EndsWithIndex(k, i) && EndsWithIndex(k, j) && |i| < |j|
    ensures '[' in j
  {
    var p := |k| - |i| - 2;
    var q := |k| - |j| - 2;
    assert k[p] == ("[" + i + "]")[0] == '[';
    assert k[q..][p - q] == k[p];
    assert ("[" + j + "]")[p - q] == j[p - q - 1];
  }

  /**
   * No key ends in both `[i]` and `[j]` for different bracket-free indices, so
   * the parameter dicts of distinct positions are disjoint and merging them
   * loses nothing.
   */
  lemma IndexSuffixUnique(k: string, i: string, j: string)
    requires NoBrackets(i) && NoBrackets(j)
    requires EndsWithIndex(k, i) && EndsWithIndex(k, j)
    ensures i == j
  {
    if |i| < |j| {
      LongerSuffixHasBracket(k, i, j);
      assert false;
    } else if |j| < |i| {
      LongerSuffixHasBracket(k, j, i);
      assert false;
    } else {
      assert i == ("[" + i + "]")[1..|i| + 1];
      assert j == ("[" + j + "]")[1..|j| + 1];
    }
  }

  /** The parameter dicts of two records at different positions share no key. */
  lemma ApiParamsDisjoint(a: Scrobble, i: string, b: Scrobble, j: string)
    requires NoBrackets(i) && NoBrackets(j) && i != j
    requires ApiParams(a, i).Ok? && ApiParams(b, j).Ok?
    ensures ApiParams(a, i).value.Keys !! ApiParams(b, j).value.Keys
  {
    var pa, pb := ApiParams(a, i).value, ApiParams(b, j).value;
    ApiParamsIndexed(a, i);
    ApiParamsIndexed(b, j);
    forall k | k in pa && k in pb ensures false {
      IndexSuffixUnique(k, i, j);
    }
  }
}
