/**
 * The `/api/recommendations` route handler. It checks the HTTP method and the
 * prompt, asks the generative model for a comma-separated list of titles,
 * looks each title up in TMDB (first search hit, first YouTube trailer) and
 * answers with the titles that resolved, in order.
 *
 * The handler is modelled as a function from the request, the TMDB key and
 * the backends to the response it sends, together with the trace of backend
 * calls it makes. The backends are oracle functions; a backend call that
 * throws is an `Err` carrying the error's message.
 */
module Recommendations {
  import opened Wrappers
  import Text

  /** The outcome of an awaited call: a value, or an error with its message. */
  datatype Fallible<+T> = Ok(value: T) | Err(message: string)

  /** One entry of TMDB's `search/movie` results. */
  datatype SearchHit = SearchHit(
    id: int,
    title: string,
    overview: string,
    posterPath: Option<string>,
    voteAverage: real,
    releaseDate: string)

  /** One entry of TMDB's `movie/{id}/videos` results; `kind` is the JSON field `type`. */
  datatype Video = Video(site: string, kind: string, key: string)

  /** One record of the response body. */
  datatype Movie = Movie(
    movies: seq<string>,
    title: string,
    overview: string,
    posterPath: Option<string>,
    rating: real,
    release: string,
    youtubeLink: Option<string>)

  datatype Body = MovieList(list: seq<Movie>) | JsonError(error: string) | PlainText(text: string)

  /** Status, the `Allow` header when it is set, and the body. */
  datatype Response = Response(status: int, allow: Option<seq<string>>, body: Body)

  /** A request sent to a backend. */
  datatype Call =
    | GenerateContent(parts: seq<string>)
    | SearchMovie(query: string)
    | MovieVideos(movieId: int)

  /** What the handler does: the response it sends and the backend calls it makes, in order. */
  datatype Exchange = Exchange(response: Response, calls: seq<Call>)

  /** The request's method (absent when undefined) and `req.body.prompt`. */
  datatype Request = Request(httpMethod: Option<string>, prompt: Option<string>)

  /**
   * The backends. `generate` is the Gemini call on the two text parts;
   * `search` and `videos` are the TMDB calls, given the API key.
   */
  datatype Backends = Backends(
    generate: seq<string> -> Fallible<string>,
    search: (string, string) -> Fallible<seq<SearchHit>>,
    videos: (string, int) -> Fallible<seq<Video>>)

  const Instruction := "You are a helpful assistant that recommends movies. Respond with a list of four movie titles, separated by commas."
  const PromptRequired := "Prompt is required"
  const GenerationFailed := "Failed to generate movie recommendations"
  const KeyMissing := "TMDB API key is not configured"
  const RouteErrorPrefix := "API route error: "
  const PosterBase := "https://image.tmdb.org/t/p/w500"
  const WatchBase := "https://www.youtube.com/watch?v="

  /** JavaScript truthiness of a value that is a string or absent. */
  predicate Truthy(s: Option<string>)
  {
    s.Some? && s.value != ""
  }

  /** The two text parts sent to Gemini for a prompt. */
  function GeminiParts(prompt: string): seq<string>
  {
    [Instruction, "Suggest movies based on the following description: " + prompt + "; which is available in TMDB database."]
  }

  /**
   * `text.trim().split(',').map(t => t.trim())`. There is one title more than
   * there are commas in the trimmed text, so the list is never empty; empty
   * titles and repeated titles are kept; no title holds a comma or has white
   * space at either end.
   */
  function ParseTitles(text: string): (titles: seq<string>)
    ensures |titles| == Text.Count(Text.Trim(text), ',') + 1
    ensures forall i :: 0 <= i < |titles| ==> ',' !in titles[i] && Text.IsTrimmed(titles[i])
  {
    var segments := Text.Split(Text.Trim(text), ',');
    seq(|segments|, i requires 0 <= i < |segments| => TrimSegment(segments[i]))
  }

  /** Trimming a segment keeps it free of commas. */
  function TrimSegment(segment: string): (r: string)
    ensures Text.IsTrimmed(r)
    ensures ',' !in segment ==> ',' !in r
  {
    Text.Trim(segment)
  }

  /** A text with no comma is one title: the whole text, trimmed. */
  lemma NoCommaIsOneTitle(text: string)
    requires ',' !in text
    ensures ParseTitles(text) == [Text.Trim(text)]
  {
    var t := Text.Trim(text);
    assert ',' !in t;
    Text.SplitWithoutSeparator(t, ',');
    Text.TrimIdempotent(text);
  }

  /** The segments, joined back with commas, are the trimmed text; each title is its segment trimmed. */
  lemma ParseTitlesJoin(text: string)
    ensures Text.Join(Text.Split(Text.Trim(text), ','), ',') == Text.Trim(text)
    ensures forall i :: 0 <= i < |ParseTitles(text)| ==>
      ParseTitles(text)[i] == Text.Trim(Text.Split(Text.Trim(text), ',')[i])
  {
    Text.JoinSplit(Text.Trim(text), ',');
  }

  /** A text that starts and ends with a non-blank character trims to itself. */
  lemma TrimUnchanged(s: string)
    requires s != [] && !Text.IsWhitespace(s[0]) && !Text.IsWhitespace(s[|s| - 1])
    ensures Text.Trim(s) == s
  {
    assert Text.LeadingWhitespace(s) == 0;
    assert Text.TrailingWhitespace(s) == 0;
  }

  /** A leading space in front of a non-blank word is trimmed away. */
  lemma TrimStripsOneSpace(s: string)
    requires |s| > 1 && s[0] == ' ' && !Text.IsWhitespace(s[1]) && !Text.IsWhitespace(s[|s| - 1])
    ensures Text.Trim(s) == s[1..]
  {
    assert Text.LeadingWhitespace(s[1..]) == 0;
    assert Text.LeadingWhitespace(s) == 1;
    assert Text.TrailingWhitespace(s) == 0;
  }

  /** Splitting two commas' worth of text: three segments, white space kept. */
  lemma SplitThree(a: string, b: string, c: string)
    requires ',' !in a && ',' !in b && ',' !in c
    ensures Text.Split(a + [','] + b + [','] + c, ',') == [a, b, c]
  {
    var tail := b + [','] + c;
    Text.SplitWithoutSeparator(c, ',');
    Text.SplitAtSeparator(b, ',', c);
    assert Text.Split(tail, ',') == [b, c];
    Text.SplitAtSeparator(a, ',', tail);
    Text.ConcatAssoc(a + [','], b + [','], c);
    Text.ConcatAssoc(a + [','], b, [',']);
  }

  /** A trimmed answer with two commas parses to its three segments, each trimmed. */
  lemma ParseThree(a: string, b: string, c: string)
    requires ',' !in a && ',' !in b && ',' !in c
    requires Text.Trim(a + [','] + b + [','] + c) == a + [','] + b + [','] + c
    ensures ParseTitles(a + [','] + b + [','] + c) == [Text.Trim(a), Text.Trim(b), Text.Trim(c)]
  {
    SplitThree(a, b, c);
  }

  /** A title as the model is asked to give it: non-empty, comma-free, no white space at either end. */
  predicate IsBareTitle(t: string)
  {
    t != [] && ',' !in t && Text.IsTrimmed(t)
  }

  /** A text made of two bare titles around a middle segment is already trimmed. */
  lemma OuterTitlesTrimmed(a: string, m: string, c: string)
    requires IsBareTitle(a) && IsBareTitle(c)
    ensures Text.Trim(a + [','] + m + [','] + c) == a + [','] + m + [','] + c
  {
    var whole := a + [','] + m + [','] + c;
    assert whole[0] == a[0];
    assert whole[|whole| - 1] == c[|c| - 1];
    TrimUnchanged(whole);
  }

  /** `"A, B,C"` spelled as three comma-separated segments. */
  lemma SpacedSegments(a: string, b: string, c: string)
    ensures a + ", " + b + "," + c == a + [','] + ([' '] + b) + [','] + c
  {
  }

  /** White space after a comma is trimmed: `"A, B,C"` parses to `["A", "B", "C"]`. */
  lemma ParseSpacedList(a: string, b: string, c: string)
    requires IsBareTitle(a) && IsBareTitle(b) && IsBareTitle(c)
    ensures ParseTitles(a + ", " + b + "," + c) == [a, b, c]
  {
    var spaced := [' '] + b;
    SpacedSegments(a, b, c);
    OuterTitlesTrimmed(a, spaced, c);
    ParseThree(a, spaced, c);
    TrimUnchanged(a);
    TrimUnchanged(c);
    TrimUnchanged(b);
    TrimStripsOneSpace(spaced);
    assert spaced[1..] == b;
  }

  /** Empty segments are kept: `"A,,C"` parses to `["A", "", "C"]`. */
  lemma EmptySegmentKept(a: string, c: string)
    requires IsBareTitle(a) && IsBareTitle(c)
    ensures ParseTitles(a + ",," + c) == [a, "", c]
  {
    assert a + ",," + c == a + [','] + [] + [','] + c;
    OuterTitlesTrimmed(a, [], c);
    ParseThree(a, [], c);
    TrimUnchanged(a);
    TrimUnchanged(c);
    assert Text.Trim([]) == [];
  }

  /** A video that is a YouTube trailer: exact, case-sensitive match on both fields. */
  predicate IsYouTubeTrailer(v: Video)
  {
    v.site == "YouTube" && v.kind == "Trailer"
  }

  /** `videos.find(...)`, as the index of the video it finds. */
  function FindTrailer(videos: seq<Video>): (r: Option<nat>)
    ensures r.None? <==> forall j :: 0 <= j < |videos| ==> !IsYouTubeTrailer(videos[j])
    ensures r.Some? ==> r.value < |videos| && IsYouTubeTrailer(videos[r.value])
    ensures r.Some? ==> forall j :: 0 <= j < r.value ==> !IsYouTubeTrailer(videos[j])
  {
    if videos == [] then None
    else if IsYouTubeTrailer(videos[0]) then Some(0)
    else match FindTrailer(videos[1..])
      case None => None
      case Some(k) => Some(k + 1)
  }

  /** The poster URL: absent exactly when the poster path is falsy, else the CDN base followed by the path. */
  function PosterUrl(posterPath: Option<string>): (r: Option<string>)
    ensures r.None? <==> !Truthy(posterPath)
    ensures r.Some? ==> |r.value| > |PosterBase| && r.value[..|PosterBase|] == PosterBase
                        && r.value[|PosterBase|..] == posterPath.value
  {
    if Truthy(posterPath) then Some(PosterBase + posterPath.value) else None
  }

  /**
   * The record built from the first search hit and the movie's videos.
   * The trailer link is present exactly when some video is a YouTube trailer,
   * and then it is the watch URL of the first one.
   */
  function BuildMovie(titles: seq<string>, hit: SearchHit, videos: seq<Video>): (m: Movie)
    ensures m.movies == titles && m.title == hit.title && m.overview == hit.overview
    ensures m.rating == hit.voteAverage && m.release == hit.releaseDate
    ensures m.posterPath == PosterUrl(hit.posterPath)
    ensures m.youtubeLink.Some? <==> exists j :: 0 <= j < |videos| && IsYouTubeTrailer(videos[j])
    ensures m.youtubeLink.Some? ==>
      exists j :: 0 <= j < |videos| && IsYouTubeTrailer(videos[j])
        && (forall k :: 0 <= k < j ==> !IsYouTubeTrailer(videos[k]))
        && m.youtubeLink.value == WatchBase + videos[j].key
  {
    var trailer := FindTrailer(videos);
    Movie(titles, hit.title, hit.overview, PosterUrl(hit.posterPath), hit.voteAverage, hit.releaseDate,
          if trailer.Some? then Some(WatchBase + videos[trailer.value].key) else None)
  }

  /**
   * The lookup of one title: `Ok(None)` when the search finds nothing,
   * the record built from the first hit otherwise, `Err` when a call throws.
   */
  function LookupTitle(titles: seq<string>, title: string, key: string, b: Backends): (r: Fallible<Option<Movie>>)
    ensures r == Ok(None) <==> b.search(key, title).Ok? && |b.search(key, title).value| == 0
    ensures b.search(key, title).Err? ==> r == Err(b.search(key, title).message)
    ensures b.search(key, title).Ok? && |b.search(key, title).value| > 0 ==>
      var hit := b.search(key, title).value[0];
      match b.videos(key, hit.id)
      case Err(msg) => r == Err(msg)
      case Ok(videos) => r == Ok(Some(BuildMovie(titles, hit, videos)))
  {
    match b.search(key, title)
    case Err(msg) => Err(msg)
    case Ok(hits) =>
      if |hits| == 0 then Ok(None)
      else match b.videos(key, hits[0].id)
        case Err(msg) => Err(msg)
        case Ok(videos) => Ok(Some(BuildMovie(titles, hits[0], videos)))
  }

  /** The TMDB calls one title's lookup makes: the search, then the videos of the first hit if any. */
  function TitleCalls(title: string, key: string, b: Backends): (r: seq<Call>)
    ensures 1 <= |r| <= 2 && r[0] == SearchMovie(title)
    ensures |r| == 2 <==> b.search(key, title).Ok? && |b.search(key, title).value| > 0
    ensures |r| == 2 ==> r[1] == MovieVideos(b.search(key, title).value[0].id)
  {
    match b.search(key, title)
    case Ok(hits) =>
      if |hits| == 0 then [SearchMovie(title)] else [SearchMovie(title), MovieVideos(hits[0].id)]
    case Err(_) => [SearchMovie(title)]
  }

  /** The TMDB calls of all lookups. Every lookup is issued, whether or not another one fails. */
  function LookupCalls(titles: seq<string>, key: string, b: Backends): (r: seq<Call>)
    ensures |titles| <= |r| <= 2 * |titles|
    ensures forall i :: 0 <= i < |titles| ==> SearchMovie(titles[i]) in r
  {
    if titles == [] then [] else TitleCalls(titles[0], key, b) + LookupCalls(titles[1..], key, b)
  }

  /** `movieTitles.map(lookup)`. */
  function LookupAll(titles: seq<string>, key: string, b: Backends): (r: seq<Fallible<Option<Movie>>>)
    ensures |r| == |titles|
    ensures forall i :: 0 <= i < |titles| ==> r[i] == LookupTitle(titles, titles[i], key, b)
  {
    seq(|titles|, i requires 0 <= i < |titles| => LookupTitle(titles, titles[i], key, b))
  }

  /**
   * `Promise.all`: all values when every lookup succeeded, otherwise one
   * failure and no values. The failure is the first in list order.
   */
  function Settle<T>(results: seq<Fallible<T>>): (r: Fallible<seq<T>>)
    ensures r.Ok? <==> forall i :: 0 <= i < |results| ==> results[i].Ok?
    ensures r.Ok? ==> |r.value| == |results| && forall i :: 0 <= i < |results| ==> r.value[i] == results[i].value
    ensures r.Err? ==> exists i :: 0 <= i < |results| && results[i] == Err(r.message)
                                   && forall j :: 0 <= j < i ==> results[j].Ok?
  {
    if results == [] then Ok([])
    else match results[0]
      case Err(msg) => Err(msg)
      case Ok(v) =>
        match Settle(results[1..])
        case Err(msg) => Err(msg)
        case Ok(vs) => Ok([v] + vs)
  }

  /** `filter(movie => movie !== null)`: the present values, in order. */
  function Present(s: seq<Option<Movie>>): (r: seq<Movie>)
    ensures |r| <= |s|
  {
    if s == [] then []
    else if s[0].Some? then [s[0].value] + Present(s[1..])
    else Present(s[1..])
  }

  /** Every listed record was present in the unfiltered list. */
  lemma {:induction false} PresentSound(s: seq<Option<Movie>>, m: Movie)
    requires m in Present(s)
    ensures Some(m) in s
  {
    if s[0] != Some(m) {
      PresentSound(s[1..], m);
    }
  }

  /** Every present record is listed. */
  lemma {:induction false} PresentComplete(s: seq<Option<Movie>>, i: nat)
    requires i < |s| && s[i].Some?
    ensures s[i].value in Present(s)
  {
    if i > 0 {
      PresentComplete(s[1..], i - 1);
    }
  }

  /** Filtering a concatenation filters each part and keeps their order. */
  lemma {:induction false} PresentAppend(a: seq<Option<Movie>>, b: seq<Option<Movie>>)
    ensures Present(a + b) == Present(a) + Present(b)
  {
    if a == [] {
      assert a + b == b;
    } else {
      var c := a + b;
      assert c[0] == a[0];
      assert c[1..] == a[1..] + b;
      PresentAppend(a[1..], b);
    }
  }

  /** The length of the filtered list is the number of present values. */
  function CountPresent(s: seq<Option<Movie>>): nat
  {
    if s == [] then 0 else (if s[0].Some? then 1 else 0) + CountPresent(s[1..])
  }

  lemma {:induction false} PresentLength(s: seq<Option<Movie>>)
    ensures |Present(s)| == CountPresent(s)
  {
    if s != [] {
      PresentLength(s[1..]);
    }
  }

  function ErrorResponse(status: int, error: string): Response
  {
    Response(status, None, JsonError(error))
  }

  /** `Method ${req.method} Not Allowed`; an undefined method prints as `undefined`. */
  function NotAllowedText(httpMethod: Option<string>): string
  {
    "Method " + (if httpMethod.Some? then httpMethod.value else "undefined") + " Not Allowed"
  }

  /**
   * `Promise.all` over the lookups, then the null filter: 200 with the
   * resolved records, or one 500 when any lookup threw.
   */
  function FanOut(titles: seq<string>, key: string, b: Backends): (r: Response)
    ensures r.status == 200 <==> forall i :: 0 <= i < |titles| ==> LookupTitle(titles, titles[i], key, b).Ok?
    ensures r.status == 200 ==> r.allow == None && r.body.MovieList?
    ensures r.status != 200 ==> r.status == 500 && r.allow == None && r.body.JsonError?
  {
    match Settle(LookupAll(titles, key, b))
    case Err(msg) => ErrorResponse(500, RouteErrorPrefix + msg)
    case Ok(details) => Response(200, None, MovieList(Present(details)))
  }

  /**
   * The handler. Anything but `POST` is answered 405 with `Allow: POST` and no
   * backend call; a falsy prompt is answered 400 before Gemini is called; a
   * thrown error anywhere afterwards becomes one 500 carrying its message.
   */
  function Handle(req: Request, tmdbKey: Option<string>, b: Backends): (x: Exchange)
    ensures x.response.status == 405 <==> req.httpMethod != Some("POST")
    ensures x.response.status == 405 ==> x.response.allow == Some(["POST"]) && x.calls == []
    ensures x.response.status == 400 <==> req.httpMethod == Some("POST") && !Truthy(req.prompt)
    ensures x.response.status == 400 ==> x.response.body == JsonError(PromptRequired) && x.calls == []
    ensures x.response.status in {200, 400, 405, 500}
    ensures x.response.status != 405 ==> x.response.allow == None
    ensures x.response.status == 200 ==> x.response.body.MovieList?
    ensures x.response.status == 500 ==> x.response.body.JsonError?
    ensures x.response.status in {200, 500} ==>
      x.calls != [] && x.calls[0] == GenerateContent(GeminiParts(req.prompt.value))
  {
    if req.httpMethod != Some("POST") then
      Exchange(Response(405, Some(["POST"]), PlainText(NotAllowedText(req.httpMethod))), [])
    else if !Truthy(req.prompt) then
      Exchange(ErrorResponse(400, PromptRequired), [])
    else
      var parts := GeminiParts(req.prompt.value);
      var asked := [GenerateContent(parts)];
      match b.generate(parts)
      case Err(msg) => Exchange(ErrorResponse(500, RouteErrorPrefix + msg), asked)
      case Ok(text) =>
        var titles := ParseTitles(text);
        if |titles| == 0 then
          Exchange(ErrorResponse(500, GenerationFailed), asked)
        else if !Truthy(tmdbKey) then
          Exchange(ErrorResponse(500, KeyMissing), asked)
        else
          Exchange(FanOut(titles, tmdbKey.value, b), asked + LookupCalls(titles, tmdbKey.value, b))
  }

  /** The 500 answer for an empty title list is never sent: parsing yields at least one title. */
  lemma GenerationFailedUnreachable(req: Request, tmdbKey: Option<string>, b: Backends)
    ensures Handle(req, tmdbKey, b).response != ErrorResponse(500, GenerationFailed)
  {
    var x := Handle(req, tmdbKey, b);
    if x.response.status == 500 && x.response.body != JsonError(KeyMissing) {
      var error := x.response.body.error;
      assert error[..|RouteErrorPrefix|] == RouteErrorPrefix;
      assert error[0] != GenerationFailed[0];
    }
  }

  /** A prompt of white space only is truthy: it is not rejected and reaches Gemini. */
  lemma BlankPromptReachesGemini(prompt: string, tmdbKey: Option<string>, b: Backends)
    requires prompt != [] && Text.AllWhitespace(prompt)
    ensures Handle(Request(Some("POST"), Some(prompt)), tmdbKey, b).response.status != 400
    ensures Handle(Request(Some("POST"), Some(prompt)), tmdbKey, b).calls[0] == GenerateContent(GeminiParts(prompt))
  {
  }

  /** A Gemini failure, or a missing TMDB key after Gemini answered, ends the request with no TMDB call. */
  lemma NoLookupBeforeKeyCheck(prompt: string, tmdbKey: Option<string>, b: Backends)
    requires prompt != ""
    requires b.generate(GeminiParts(prompt)).Err? || !Truthy(tmdbKey)
    ensures Handle(Request(Some("POST"), Some(prompt)), tmdbKey, b).calls == [GenerateContent(GeminiParts(prompt))]
    ensures Handle(Request(Some("POST"), Some(prompt)), tmdbKey, b).response.status == 500
    ensures b.generate(GeminiParts(prompt)).Ok? ==>
      Handle(Request(Some("POST"), Some(prompt)), tmdbKey, b).response.body == JsonError(KeyMissing)
    ensures b.generate(GeminiParts(prompt)).Err? ==>
      Handle(Request(Some("POST"), Some(prompt)), tmdbKey, b).response.body
        == JsonError(RouteErrorPrefix + b.generate(GeminiParts(prompt)).message)
  {
    if b.generate(GeminiParts(prompt)).Ok? {
      assert |ParseTitles(b.generate(GeminiParts(prompt)).value)| >= 1;
    }
  }

  /** The title `title` resolves to `m`: its search succeeded with a first hit and `m` was built from that hit. */
  ghost predicate ResolvesTo(titles: seq<string>, title: string, key: string, b: Backends, m: Movie)
  {
    && b.search(key, title).Ok?
    && |b.search(key, title).value| > 0
    && b.videos(key, b.search(key, title).value[0].id).Ok?
    && m == BuildMovie(titles, b.search(key, title).value[0], b.videos(key, b.search(key, title).value[0].id).value)
  }

  /** After Gemini answered and the key is present, the answer is the fan-out's. */
  lemma HandleReachesFanOut(prompt: string, text: string, key: string, b: Backends)
    requires prompt != "" && key != ""
    requires b.generate(GeminiParts(prompt)) == Ok(text)
    ensures Handle(Request(Some("POST"), Some(prompt)), Some(key), b)
      == Exchange(FanOut(ParseTitles(text), key, b),
                  [GenerateContent(GeminiParts(prompt))] + LookupCalls(ParseTitles(text), key, b))
  {
    assert |ParseTitles(text)| != 0;
  }

  /**
   * When one title's lookup throws, the whole request fails: the answer is a
   * single 500 naming the first failed lookup's error, and no partial list is sent.
   */
  lemma OneFailedLookupFailsAll(titles: seq<string>, key: string, b: Backends, i: nat)
    requires i < |titles| && LookupTitle(titles, titles[i], key, b).Err?
    ensures FanOut(titles, key, b).status == 500
    ensures exists j :: (0 <= j <= i
      && (forall k :: 0 <= k < j ==> LookupTitle(titles, titles[k], key, b).Ok?)
      && LookupTitle(titles, titles[j], key, b).Err?
      && FanOut(titles, key, b).body == JsonError(RouteErrorPrefix + LookupTitle(titles, titles[j], key, b).message))
  {
    var results := LookupAll(titles, key, b);
    var settled := Settle(results);
    var j :| 0 <= j < |results| && results[j] == Err(settled.message) && forall k :: 0 <= k < j ==> results[k].Ok?;
    assert results[i].Err?;
    assert j <= i;
  }

  /**
   * A successful answer lists, in title order, one record per title whose
   * search found something: at most one record per title, each built from
   * its title's first search hit, titles without a hit contributing nothing.
   */
  lemma SuccessListsResolvedTitles(titles: seq<string>, key: string, b: Backends)
    requires FanOut(titles, key, b).status == 200
    ensures |FanOut(titles, key, b).body.list| <= |titles|
    ensures forall m :: m in FanOut(titles, key, b).body.list ==>
      exists i :: 0 <= i < |titles| && ResolvesTo(titles, titles[i], key, b, m)
    ensures forall i :: 0 <= i < |titles| && b.search(key, titles[i]).Ok? && |b.search(key, titles[i]).value| > 0 ==>
      exists m :: m in FanOut(titles, key, b).body.list && ResolvesTo(titles, titles[i], key, b, m)
    ensures FanOut(titles, key, b).body.list
      == Present(seq(|titles|, i requires 0 <= i < |titles| => LookupTitle(titles, titles[i], key, b).value))
  {
    var x := Exchange(FanOut(titles, key, b), []);
    var results := LookupAll(titles, key, b);
    var settled := Settle(results);
    if settled.Ok? {
      var details := settled.value;
      assert x.response.body.list == Present(details);
      assert details == seq(|titles|, i requires 0 <= i < |titles| => LookupTitle(titles, titles[i], key, b).value);
      forall m | m in x.response.body.list
        ensures exists i :: 0 <= i < |titles| && ResolvesTo(titles, titles[i], key, b, m)
      {
        PresentSound(details, m);
        var i :| 0 <= i < |details| && details[i] == Some(m);
        assert results[i] == LookupTitle(titles, titles[i], key, b);
        assert ResolvesTo(titles, titles[i], key, b, m);
      }
      forall i | 0 <= i < |titles| && b.search(key, titles[i]).Ok? && |b.search(key, titles[i]).value| > 0
        ensures exists m :: m in x.response.body.list && ResolvesTo(titles, titles[i], key, b, m)
      {
        assert results[i] == LookupTitle(titles, titles[i], key, b);
        PresentComplete(details, i);
        assert ResolvesTo(titles, titles[i], key, b, details[i].value);
      }
    }
  }


  /**
   * Of two titles, the one without a search hit is dropped and the other is
   * listed; with no YouTube trailer among its videos it has no trailer link.
   */
  lemma UnmatchedTitleDropped(key: string, b: Backends, hit: SearchHit, videos: seq<Video>)
    requires b.search(key, "Foo") == Ok([]) && b.search(key, "Bar") == Ok([hit])
    requires b.videos(key, hit.id) == Ok(videos)
    requires forall j :: 0 <= j < |videos| ==> !IsYouTubeTrailer(videos[j])
    ensures FanOut(["Foo", "Bar"], key, b) == Response(200, None, MovieList([BuildMovie(["Foo", "Bar"], hit, videos)]))
    ensures BuildMovie(["Foo", "Bar"], hit, videos).youtubeLink == None
  {
    var titles := ["Foo", "Bar"];
    var results := LookupAll(titles, key, b);
    var m := BuildMovie(titles, hit, videos);
    assert results == [Ok(None), Ok(Some(m))];
    assert results[1..] == [Ok(Some(m))];
    assert results[1..][1..] == [];
    assert Settle(results[1..][1..]) == Ok([]);
    assert [Some(m)] + [] == [Some(m)];
    assert Settle(results[1..]) == Ok([Some(m)]);
    assert [None] + [Some(m)] == [None, Some(m)];
    assert Settle(results) == Ok([None, Some(m)]);
    assert Present([Some(m)]) == [m];
    assert Present([None, Some(m)]) == [m] by {
      assert [None, Some(m)][1..] == [Some(m)];
    }
  }

  /** A YouTube trailer is chosen over a YouTube teaser listed before it. */
  lemma TrailerPreferredOverTeaser(titles: seq<string>, hit: SearchHit, teaser: string, trailer: string)
    ensures BuildMovie(titles, hit, [Video("YouTube", "Teaser", teaser), Video("YouTube", "Trailer", trailer)]).youtubeLink
            == Some(WatchBase + trailer)
  {
    var videos := [Video("YouTube", "Teaser", teaser), Video("YouTube", "Trailer", trailer)];
    assert !IsYouTubeTrailer(videos[0]);
    assert videos[1..] == [videos[1]];
    assert FindTrailer(videos[1..]) == Some(0);
    assert FindTrailer(videos) == Some(1);
  }
}
