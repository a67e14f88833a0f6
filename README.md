# LikeAMovie: a verified model of the recommendation pipeline and page logic

LikeAMovie is a movie-discovery web front end. The user describes the kind of
movie they want. A server route asks a generative model (Gemini) for a
comma-separated list of titles. It looks each title up in TMDB, the movie
metadata service: it takes the first search hit, the first YouTube trailer and
the poster. It then answers with the titles that resolved. Around that route
sit a few pieces of client logic. The recommendation page keeps its submit
state and an expanded flag per card, and it truncates long overviews. The
upcoming-movies page filters by genre and pages through results. The header
rewrites a search into a query path and highlights the current page's link.

The project models these parts in Dafny and proves what they promise:

- `Text.dfy`: the JavaScript string operations the code uses. These are
  `trim` (with JavaScript's white-space set), `split` on one character, `join`,
  and the `split(a).join(b)` rewrite, with the round trips between them.
- `Recommendations.dfy`: the `/api/recommendations` handler. It is a
  function from the request, the TMDB key and the backends to the response it
  sends, plus the trace of backend calls it makes. The backends (Gemini, TMDB
  search, TMDB videos) are oracle functions. A call that throws is an `Err`
  carrying the error's message.
- `RecommendationPage.dfy`: the recommendation page. A class `Page` holds its
  state cells, with the submit and toggle transitions as methods. Pure
  functions give the card toggle and the overview display rule.
- `UpcomingPage.dfy`: the genre filter applied to each fetched page, the
  next-page rule, and the genre selector's `Number(value) || null`.
- `Header.dfy`: the search target and the navigation links' `active` flags.
- `Wrappers.dfy`: the `Option` datatype for `null`/`undefined`.

Three behaviours of the route are worth stating plainly, and the model
keeps them:

- The code keeps empty title segments. `"A,,C"` yields the titles `A`, the
  empty string and `C`.
- The code treats a prompt made only of white space as truthy. It is not
  rejected and it reaches Gemini.
- In the code, one failed per-title lookup fails the whole request with a
  single 500. The other lookups are not isolated from it.

The 500 "Failed to generate movie recommendations" branch can never be taken,
because parsing always yields at least one title. The model keeps that branch
and proves it unreachable.

## Model

| member | source | states |
|---|---|---|
| `Text.Trim` | src/pages/api/recommendations.ts:26 | the result has no white space at either end, is a contiguous slice of the input, and only white space surrounds it |
| `Text.TrimEmptyIffAllWhitespace` | src/components/Header.tsx:21 | `!s.trim()` holds exactly when the string is all white space |
| `Text.TrimIdempotent` | src/pages/api/recommendations.ts:26 | trimming an already trimmed string changes nothing |
| `Text.Split` | src/pages/api/recommendations.ts:26 | `split` on one character yields one segment more than there are separators, and no segment contains the separator |
| `Text.JoinSplit` | src/pages/api/recommendations.ts:26 | joining the segments with the separator gives back the string that was split |
| `Text.Join` | src/components/Header.tsx:23 | `join` puts one separator between each two parts: the length is the parts' total plus one less than their number, and separator-free parts give exactly one separator fewer than there are parts |
| `Text.SplitJoin` | src/components/Header.tsx:23 | splitting a join of separator-free parts gives back the parts |
| `Text.SplitJoinReplaces` | src/components/Header.tsx:23 | `split(a).join(b)` replaces every `a` by `b` and keeps every other character in place |
| `Recommendations.ParseTitles` | src/pages/api/recommendations.ts:26 | the number of titles is the number of commas in the trimmed text plus one, so it is at least one; no title contains a comma or has white space at either end |
| `Recommendations.NoCommaIsOneTitle` | src/pages/api/recommendations.ts:26 | a text without commas, such as prose, is a single title: the whole text, trimmed |
| `Recommendations.ParseTitlesJoin` | src/pages/api/recommendations.ts:26 | the segments re-joined with commas are the trimmed text, and each title is its segment trimmed |
| `Recommendations.ParseThree` | src/pages/api/recommendations.ts:26 | a trimmed text with two commas parses to its three segments, each trimmed |
| `Recommendations.ParseSpacedList` | src/pages/api/recommendations.ts:26 | `"A, B,C"` parses to `A`, `B`, `C`: white space after a comma is dropped |
| `Recommendations.EmptySegmentKept` | src/pages/api/recommendations.ts:26 | `"A,,C"` parses to `A`, the empty title and `C`: empty segments are kept |
| `Recommendations.FindTrailer` | src/pages/api/recommendations.ts:53-55 | finds the first video whose site is exactly `YouTube` and whose type is exactly `Trailer`; returns none exactly when no video matches |
| `Recommendations.PosterUrl` | src/pages/api/recommendations.ts:61 | the poster URL is absent exactly when the poster path is falsy; otherwise it is the CDN base followed by the path, which can be read back |
| `Recommendations.BuildMovie` | src/pages/api/recommendations.ts:57-65 | every record field comes from the first search hit; the trailer link is present exactly when some video is a YouTube trailer, and it is the watch URL of the first such video |
| `Recommendations.Settle` | src/pages/api/recommendations.ts:39-67 | `Promise.all` succeeds exactly when every lookup succeeded, and then keeps every value in order; otherwise it fails with a lookup's error and returns no values |
| `Recommendations.Present` | src/pages/api/recommendations.ts:69 | the null filter returns no more records than there were titles |
| `Recommendations.PresentSound` | src/pages/api/recommendations.ts:69 | every listed record was a non-null lookup result |
| `Recommendations.PresentComplete` | src/pages/api/recommendations.ts:69 | every non-null lookup result is listed |
| `Recommendations.PresentAppend` | src/pages/api/recommendations.ts:69 | filtering preserves order: the filter of a concatenation is the concatenation of the filters |
| `Recommendations.PresentLength` | src/pages/api/recommendations.ts:69 | the filtered list is as long as the number of non-null results |
| `Recommendations.LookupTitle` | src/pages/api/recommendations.ts:40-66 | one title's lookup is `null` exactly when the search succeeded with no hit; a throwing search or videos call fails the lookup with that call's message; otherwise it is the record built from the first hit and its videos |
| `Recommendations.TitleCalls` | src/pages/api/recommendations.ts:41-50 | a lookup first searches for its title, and asks for videos, of the first hit, exactly when the search found something |
| `Recommendations.LookupCalls` | src/pages/api/recommendations.ts:39-67 | the fan-out makes at least one and at most two TMDB calls per title in total (between `|titles|` and `2 * |titles|`), and searches for every title |
| `Recommendations.FanOut` | src/pages/api/recommendations.ts:39-70 | the fan-out answers 200 with a list exactly when every title's lookup succeeded, and otherwise answers one 500 with an error body |
| `Recommendations.Handle` | src/pages/api/recommendations.ts:7-79 | non-POST gives 405 with `Allow: POST` and no backend call; a falsy prompt gives 400 `Prompt is required` with no backend call; every other answer is 200 or 500 and begins with the Gemini call |
| `Recommendations.GenerationFailedUnreachable` | src/pages/api/recommendations.ts:29-31 | the "Failed to generate movie recommendations" answer is never sent |
| `Recommendations.BlankPromptReachesGemini` | src/pages/api/recommendations.ts:13-23 | a prompt of white space only is not rejected with 400, and Gemini is called with it |
| `Recommendations.NoLookupBeforeKeyCheck` | src/pages/api/recommendations.ts:20-36 | when Gemini throws, or the TMDB key is missing, the answer is 500 and the only call made is to Gemini; a Gemini throw gives `API route error: ` followed by its message, a missing key gives `TMDB API key is not configured` |
| `Recommendations.HandleReachesFanOut` | src/pages/api/recommendations.ts:33-70 | after Gemini answered and the key is present, the exchange is the fan-out's answer, and its call trace is the Gemini call followed by every title's TMDB calls |
| `Recommendations.OneFailedLookupFailsAll` | src/pages/api/recommendations.ts:39-73 | one thrown title lookup turns the whole answer into a single 500 `API route error: ` plus the first failing lookup's message, with no partial list |
| `Recommendations.SuccessListsResolvedTitles` | src/pages/api/recommendations.ts:39-70 | a 200 list is the titles' lookup results, in title order, with the `null`s dropped: one record per title with a hit and none for a title without one; each record is built from its title's first search hit |
| `Recommendations.UnmatchedTitleDropped` | src/pages/api/recommendations.ts:45-46 | of the titles `Foo` (no hit) and `Bar` (one hit, no trailer), only `Bar` is listed, with no trailer link |
| `Recommendations.TrailerPreferredOverTeaser` | src/pages/api/recommendations.ts:52-55 | a YouTube `Trailer` is chosen over a YouTube `Teaser` listed before it |
| `RecommendationPage.ErrorMessage` | src/pages/movie/get-recommendation.tsx:52-57 | no error on success; on an HTTP-client error, the server's `error` when it is non-empty and the fixed API message otherwise; any other failure gives the unexpected-error message; a set error is never empty |
| `RecommendationPage.Toggle` | src/pages/movie/get-recommendation.tsx:63-67 | keeps the length, negates the entry at the index and leaves every other entry unchanged |
| `RecommendationPage.ToggleOutOfRange` | src/pages/movie/get-recommendation.tsx:64-66 | an index outside the list changes nothing |
| `RecommendationPage.ToggleTwice` | src/pages/movie/get-recommendation.tsx:64-66 | toggling the same index twice restores the list |
| `RecommendationPage.ToggleCommutes` | src/pages/movie/get-recommendation.tsx:64-66 | toggles of two indices commute |
| `RecommendationPage.OverviewShown` | src/pages/movie/get-recommendation.tsx:144-148 | an expanded overview, or one of at most 250 characters, is shown whole; otherwise the first 250 characters are shown, followed by `...` |
| `RecommendationPage.HasToggleButton` | src/pages/movie/get-recommendation.tsx:144-149 | the Read More / Show Less button is shown exactly when the collapsed overview is cut to 250 characters plus `...`; without it the collapsed overview is the whole text |
| `RecommendationPage.ToggleLabel` | src/pages/movie/get-recommendation.tsx:154 | the label is `Show Less` exactly on an expanded card and `Read More` exactly on a collapsed one |
| `RecommendationPage.ToggleFlipsLabel` | src/pages/movie/get-recommendation.tsx:152-154 | pressing a card's button changes that card's label |
| `RecommendationPage.NoButtonShowsWhole` | src/pages/movie/get-recommendation.tsx:144-149 | without the Read More button (overview of at most 250 characters) the overview is shown whole, expanded or not |
| `RecommendationPage.ButtonChangesText` | src/pages/movie/get-recommendation.tsx:144-154 | with the button, collapsed and expanded texts differ, unless the overview is exactly 250 characters followed by `...` |
| `RecommendationPage.Page.constructor` | src/pages/movie/get-recommendation.tsx:23-28 | initial state: empty prompt, no movies, no flags, not loading, no error, no fallback |
| `RecommendationPage.Page.SetPrompt` | src/pages/movie/get-recommendation.tsx:87 | typing sets the prompt and keeps the page invariant |
| `RecommendationPage.Page.BeginSubmit` | src/pages/movie/get-recommendation.tsx:34-38 | submit start: loading on, error cleared, movies and flags emptied, fallback off |
| `RecommendationPage.Page.CompleteSubmit` | src/pages/movie/get-recommendation.tsx:40-60 | an empty answer shows the single placeholder and the fallback flag, with no expanded flags; a non-empty answer shows the movies, all collapsed, one flag each; a failure sets the error; loading ends; the page invariant holds |
| `RecommendationPage.Page.HandleSubmit` | src/pages/movie/get-recommendation.tsx:32-61 | the state after a submit depends only on how the request ended, as stated for `CompleteSubmit`; after a non-empty answer every card shows its collapsed overview |
| `RecommendationPage.Page.ToggleExpanded` | src/pages/movie/get-recommendation.tsx:63-67 | the flags become `Toggle` of the old flags; the one-flag-per-card invariant is kept |
| `RecommendationPage.Page.CardOverview` | src/pages/movie/get-recommendation.tsx:144-148 | an expanded card shows its whole overview; any other card, including one without a flag, shows the collapsed text |
| `UpcomingPage.FilterGenre` | src/pages/movie/upcoming.tsx:37 | every kept result lists the genre; no more results than before |
| `UpcomingPage.FilterIsSubsequence` | src/pages/movie/upcoming.tsx:37 | the kept results are a subsequence of the page's results, in their original order |
| `UpcomingPage.FilterKeepsExactlyMatching` | src/pages/movie/upcoming.tsx:37 | each result with the genre is kept as often as it occurs, and each one without it is dropped |
| `UpcomingPage.ApplyGenreFilter` | src/pages/movie/upcoming.tsx:32-40 | with a genre selected only `results` changes, to the fetched results filtered by the genre, so every kept result has it; with none the page is returned unchanged; `page` and `total_pages` are always copied |
| `UpcomingPage.NextPageParam` | src/pages/movie/upcoming.tsx:41-42 | a next page exists exactly when `page < total_pages`, and it is `page + 1` |
| `UpcomingPage.FilterKeepsNextPage` | src/pages/movie/upcoming.tsx:34-42 | filtering a page never changes which page is fetched next |
| `UpcomingPage.PageChainVisitsEachPage` | src/pages/movie/upcoming.tsx:41-42 | loading more from a page fetches every following page up to `total_pages`, once each and in order, then stops |
| `UpcomingPage.Decimal` | src/pages/movie/upcoming.tsx:64 | a genre id's option value is a non-empty digit string without leading zeros, and its value is the id |
| `UpcomingPage.NumberValue` | src/pages/movie/upcoming.tsx:58 | `Number` gives 0 for the empty value, the digits' value for a digit string, and NaN for anything else |
| `UpcomingPage.SelectValue` | src/pages/movie/upcoming.tsx:57 | the selector shows the empty value exactly when no genre is selected, and otherwise the decimal digits of the selected genre id |
| `UpcomingPage.SelectGenre` | src/pages/movie/upcoming.tsx:58 | an empty, non-numeric or zero value selects no genre; otherwise the number is selected, and it is never 0 |
| `UpcomingPage.ChoosingGenreSelectsIt` | src/pages/movie/upcoming.tsx:58-64 | choosing the option of genre `id` selects exactly `id` |
| `UpcomingPage.SelectRoundTrip` | src/pages/movie/upcoming.tsx:57-58 | reading back the selector's displayed value gives the same selection |
| `Header.SearchTarget` | src/components/Header.tsx:18-24 | a missing, empty or white-space-only input sends the router nowhere; otherwise it goes to `/search?query=` plus the input with every space replaced by a hyphen |
| `Header.SearchQueryShape` | src/components/Header.tsx:21-23 | the query has the input's length and contains no space; every non-space character stays in place (tabs included); leading and trailing spaces become hyphens |
| `Header.SearchQueryInvertible` | src/components/Header.tsx:23 | for an input without hyphens, turning the query's hyphens back into spaces gives back the input |
| `Header.ActiveFlags` | src/components/Header.tsx:62 | a link is active exactly when the router's path equals the link's path |
| `Header.AtMostOneActive` | src/components/Header.tsx:7-12 | at most one link is active, and exactly one on a page the menu lists |

## Left out

- Network I/O is not modelled as calls. The Gemini client, the TMDB requests and the client's POST are oracle inputs (`Backends`, `PostOutcome`). Console logging has no effect on the answer and is left out.
- The Gemini API key is folded into the `generate` oracle: a missing key shows up as that call failing. The TMDB key is only "present or absent".
- `encodeURIComponent` and URL query escaping are part of the `search` oracle, which receives the raw title.
- Concurrency of `Promise.all` is not modelled. The lookups are a sequential map, and every title's calls appear in the trace. `Recommendations.Settle` reports the first failure in title order; the real route reports the first failure in time. When a lookup fails, the real route may answer before the other titles' videos calls are made; the trace lists the calls, not when the answer is sent relative to them.
- Request bodies that cannot be destructured are not modelled, and neither are non-string prompts (numbers, booleans). The prompt is a string or absent.
- Malformed backend payloads are not modelled separately. A missing `results` array or a `text()` that throws is an `Err` of that backend.
- Floating point is not modelled. `vote_average` and `rating` are passed through as opaque reals, and `rating.toFixed(1)` is display formatting.
- Lengths are counted in characters, not UTF-16 code units. `slice(0, 250)` and `length > 250` therefore agree with the code only outside astral-plane text.
- `UpcomingPage.NumberValue`: it does not model JavaScript's full `Number` conversion. Surrounding white space, signs, fractions, exponents, hexadecimal and `Infinity` all give NaN here. The selector only ever yields the empty value or a genre id's digits.
- JSX rendering and layout are not modelled. This covers Swiper, Flowbite, Next `Image`/`Link`/`Head`, CSS classes, `getStaticProps`, and the react-query prefetch and dehydrate calls.
- The client's `Movie` type is its own record. The server's records carry a `movies` field where the client type declares `moviesName`. The page never reads either field.
- `src/pages/movie/popular.tsx` is not part of this model. Its `getNextPageParam` (lines 26-27) is the same rule as `UpcomingPage.NextPageParam`.
- `src/pages/movie/[id].tsx` is not part of this model. It is a server-rendered detail page: `getServerSideProps` (lines 10-28) fetches one movie and its videos, and its trailer rule is the one `Recommendations.FindTrailer` models.
- `src/pages/index.tsx`, `src/components/Content.tsx`, `tailwind.config.js` and `next.config.js` are not part of this model. They are a static page, layout and build configuration.
