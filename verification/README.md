# Stream Avatar Creator — a Dafny model of its pure logic

The Stream Avatar Creator is a single-page browser app. It signs in to the
Unith "Digital Human" platform API, lets the user page through up to 50 head
visuals ten at a time, and picks an ElevenLabs voice. It then creates a
streaming head and hands back a `https://stream.unith.ai/<org>/<head>?api_key=…`
link. Almost all of `src/App.jsx` is React view code and `fetch` calls. This
project lifts out the small pure computations those handlers perform and
proves what they guarantee:

- `Js` — the JavaScript semantics the app relies on. JSON fields are
  `Option`s and thrown errors are `Result.Err`. It covers truthiness and
  `a || b || ''` chains (`Or`, specified by `IsFirstTruthy`),
  `Array.prototype.slice`, and `split('/')` / `join('/')` with their
  round-trip lemmas. It also covers `filter(Boolean)`.
- `Pagination` — page count, page slice, the Prev/Next buttons and the
  reload reset. All of it is modelled as a small state machine, `Step`/`Run`,
  over `Gallery(visuals, page)`.
- `Voices` — the mapping of loosely shaped voice records into `Voice`, the
  filter on id and name, and the default voice choice.
- `Api` — the request `api()` builds: method default, conditional
  `Content-Type` and `Authorization` headers, optional body. It also covers
  the sign-in guard and how the token is read from the response.
- `CreateHead` — the create guard, the create body with its optional
  `orgId`, the new head's id, the public URL choice and the stream link.

JSON bodies and headers are `map<string, string>`, as a JS object would be.
The browser's URL parser is not modelled: the stream link is computed from
the public URL's pathname string and its `api_key` query value, which the
caller supplies.

One consequence of the source's fallback chains is worth knowing. The
display name falls back to the raw `voiceId` and `id` fields, never to
`voice_id`. So a record that carries only `voice_id` and no
`displayName`/`name` is dropped (`Voices.UsableIff`).

## Model

| member | source | states |
|---|---|---|
| Js.Or | src/App.jsx:123-127 | `a || b || ''` yields the first present non-empty field of the chain, and yields `''` exactly when no field is non-empty |
| Js.Slice | src/App.jsx:192 | `slice(start, end)` returns consecutive elements from the resolved start; for `0 <= start <= end` it is exactly `s[start..end]` clipped to the length |
| Js.Split | src/App.jsx:174 | `split('/')` gives one piece more than there are separators, and no piece contains the separator |
| Js.JoinSplit | src/App.jsx:174 | joining the pieces of a split with the separator gives back the original string |
| Js.SplitJoin | src/App.jsx:174 | splitting separator-free pieces that were joined gives back exactly those pieces |
| Js.NonEmpty | src/App.jsx:174 | `filter(Boolean)` keeps every non-empty piece and only those, and never grows the list |
| Js.NonEmptyAppend | src/App.jsx:174 | `filter(Boolean)` keeps order and multiplicity: filtering a concatenation concatenates the filtered parts, and one piece is kept iff it is non-empty |
| Pagination.PageCount | src/App.jsx:193 | the page count is at least 1; it is 1 for an empty gallery, and otherwise the least `c` with `n <= 10c` (the ceiling of n/10) |
| Pagination.PageItems | src/App.jsx:190-192 | a page holds at most 10 visuals: exactly those at indices `(p-1)*10` up to `p*10`, clipped to the length; it is empty past the end |
| Pagination.PagesCoverGallery | src/App.jsx:190-193 | pages `1..PageCount` laid end to end are the whole gallery in order, so each visual is shown exactly once |
| Pagination.ItemPage | src/App.jsx:190-193 | visual `i` is at slot `i % 10` of page `i / 10 + 1`, and that page is within `1..PageCount` |
| Pagination.PrevPage | src/App.jsx:279-280 | Prev never takes a page of at least 1 below 1; it moves back one page when not on page 1 and is inert otherwise |
| Pagination.NextPage | src/App.jsx:286-287 | Next never takes an in-range page above the page count; it moves forward one page when not on the last page and is inert otherwise |
| Pagination.PrevNextInverse | src/App.jsx:279-287 | within the page range, Next undoes Prev and Prev undoes Next |
| Pagination.Step | src/App.jsx:96-99 | a reload replaces the visuals and resets to page 1; Prev/Next keep the visuals; every event keeps the page valid |
| Pagination.RunPreservesValid | src/App.jsx:279-287 | no sequence of Prev, Next and reloads moves a valid page outside `1..PageCount` |
| Pagination.ReachablePageInRange | src/App.jsx:24-27 | starting from no visuals on page 1, every event sequence keeps the page in `1..PageCount` |
| Voices.Normalise | src/App.jsx:122-128 | voiceId is the first non-empty of voiceId, voice_id, id, ttsVoice; displayName the first non-empty of displayName, name, ttsVoice, voiceId, id; locale of locale, languageCode; otherwise `''` |
| Voices.UsableIff | src/App.jsx:123-129 | a raw record survives iff it has voiceId, id or ttsVoice, or has voice_id together with displayName or name |
| Voices.NormaliseEach | src/App.jsx:121-128 | the mapping keeps length and position: entry `i` is the normalisation of raw record `i` |
| Voices.KeepUsable | src/App.jsx:129 | the filter keeps every voice with non-empty id and name, keeps nothing else, and never grows the list |
| Voices.NormaliseAll | src/App.jsx:121-129 | every listed voice has non-empty voiceId and displayName and comes from a raw record; every usable raw record is listed; the list is no longer than the input |
| Voices.KeepUsableSelects | src/App.jsx:129 | the filtered list is an order-preserving subsequence: entry `k` is input entry `Kept[k]`, the kept positions strictly increase, and a position is kept iff its voice is usable |
| Voices.FirstUsable | src/App.jsx:129-132 | the reference for "first usable voice": a position holding a usable voice with no usable voice before it, or the length when there is none |
| Voices.KeepUsableHead | src/App.jsx:129-132 | the filtered list is non-empty iff some voice is usable, and it then starts with the first usable voice |
| Voices.DefaultVoice | src/App.jsx:132 | the first list entry's id becomes the selection only when none is selected and the list is non-empty; otherwise the selection is unchanged |
| Voices.LoadedSelection | src/App.jsx:129-132 | after a load a selection exists iff one existed or some normalised record is usable; a new selection is the id of the first usable record; loading again changes nothing |
| Api.Call | src/App.jsx:44-55 | URL is the API origin plus path, and the method defaults to GET. Accept is always sent. Content-Type is present iff the method is not GET. `Authorization: Bearer <token>` is present iff a token is held. No other header is sent, and the body is sent only when given |
| Api.MethodOnlyAffectsContentType | src/App.jsx:49-53 | two calls that differ only in method differ only in the Content-Type header |
| Api.TokenCall | src/App.jsx:67-68 | sign-in fails with "Please enter email and secret key." iff email or secret key is empty; otherwise it POSTs `{email, secretKey}` to `/auth/token` with Content-Type, and with `Authorization: Bearer <token>` iff a token is already held, so signing in again sends the old token |
| Api.ExtractToken | src/App.jsx:69-70 | the token is `token` if non-empty, else `data.bearer` if non-empty; otherwise sign-in fails with "No token returned. Check credentials." |
| Api.SignIn | src/App.jsx:67-70 | sign-in yields a token only for non-empty credentials, and then exactly the token read from the answer; it fails with the credentials message iff the request is refused, and with the no-token message iff the request is made but the answer holds no token |
| CreateHead.CreateBody | src/App.jsx:149-160 | the body has exactly the nine fixed members (alias doubles as name, en-US, oc, elevenlabs, the chosen voice, empty greetings); `orgId` is present iff one was entered, with that value |
| CreateHead.OrgIdOnlyAddsMember | src/App.jsx:149-160 | entering an org id adds the `orgId` member and changes no other member of the body |
| CreateHead.CreateBodyInjective | src/App.jsx:149-160 | the body determines the form: equal bodies come from the same visual, alias, voice and org id |
| CreateHead.CreateRequest | src/App.jsx:145-161 | no request iff the visual or the alias is empty; otherwise a POST to `/head/create` with the create body, authorised iff a token is held |
| CreateHead.NewHeadId | src/App.jsx:162-163 | the head id is the first non-empty of id, publicId, headId; the flow fails with "Head ID not returned." iff none is non-empty |
| CreateHead.PublicUrl | src/App.jsx:171 | the details' public URL wins when non-empty, then the create response's, else `''` |
| CreateHead.Segments | src/App.jsx:174 | every path segment is non-empty and contains no `/` |
| CreateHead.SegmentsOfPieces | src/App.jsx:174 | for every pathname, written as slash-free pieces joined by `/`, the segments are exactly the non-empty pieces in order |
| CreateHead.SegmentsTrailingSlash | src/App.jsx:174-176 | a trailing `/` after `/org/head` does not change the segments `[org, head]` |
| CreateHead.SegmentsDoubledSlash | src/App.jsx:174-176 | a doubled leading `/` before `org/head` does not change the segments `[org, head]` |
| CreateHead.StreamUrl | src/App.jsx:172-180 | a link exists iff the path has at least two non-empty segments and `api_key` is non-empty; it is then `https://stream.unith.ai/` + seg0 + `/` + seg1 + `?api_key=` + key |
| CreateHead.SegmentsOfPath | src/App.jsx:174 | a pathname `/s0/s1/…` of non-empty, slash-free segments yields exactly those segments |
| CreateHead.StreamUrlOfPublicPath | src/App.jsx:173-179 | for a path `/org/head/…` and a non-empty key the link is `https://stream.unith.ai/org/head?api_key=key`, whatever further segments follow |
| CreateHead.StreamPathSegments | src/App.jsx:179 | the link's own path `/org/head` yields back the segments `[org, head]` |

## Left out

- Network I/O: `fetch`, the response's `ok`/`text()`/`json()` handling and the `HTTP <status> — <text>` error (src/App.jsx:46-60). They run against an external API, so the model stops at the request `api()` builds.
- JSON serialisation: `JSON.stringify` of the body is not modelled. A body is the object (map) itself, so member order is not represented.
- React state hooks, rendering and event wiring (src/App.jsx:3-10, 196-369). Handlers are modelled as functions of the state they read. For example, the voice selection is a parameter of `Voices.DefaultVoice`. So the stale-closure value a handler may see is not modelled.
- The Create button's extra disabling on missing token or voice (src/App.jsx:338) is not modelled. It is UI wiring; only the guard inside `createHead` (line 146) is modelled.
- The `new URL(...)`/`URLSearchParams` parser: the pathname and the `api_key` value are inputs. A malformed public URL makes the parser throw, and that error path is not modelled.
- The `Date.now()` cache-buster and the other query parameters of the visuals request (src/App.jsx:88-96) are left out. The clock is not deterministic, and the query is request plumbing.
- Taking `resp.data` as the visuals only when it is an array (src/App.jsx:97) is left out: the model starts from the loaded list.
- The `??` chain that picks the raw voice array out of the response (src/App.jsx:113-119) is left out. The model starts from the raw voice records.
- The `if (!token) return` guards of the two loaders (src/App.jsx:85, 109) are left out. When no token is held they skip the whole loader: no visuals are stored, the page is not reset and no voices or default voice are set. A skipped load changes none of the modelled state, which is why it is not an event of `Pagination.Step`. Since `getToken` calls the loaders from the same render (src/App.jsx:71-75), they still see the token from before sign-in; on a first sign-in both return without loading anything. That stale value is not modelled.
- Voices.NormaliseAll: does not model the error path taken when the voice array holds a `null` element, or when the `??` chain (src/App.jsx:113-119) yields something other than an array. There the field read at src/App.jsx:123, or the `map` at src/App.jsx:122, throws a TypeError. The catch at src/App.jsx:133-134 then records the message and leaves the voice list and the selection unchanged. The input is a `seq<RawVoice>`, which cannot hold a `null` element or a non-array value.
- CreateHead.Segments: its own contract says only that each segment is non-empty and slash-free, which the empty list also meets. Which segments come out, and in what order, is stated by `CreateHead.SegmentsOfPieces` for every pathname, together with `Js.JoinSplit`.
- `bestThumb` (src/App.jsx:140-142) only picks an image for display.
- The splitter `PUT` (src/App.jsx:167) is left out: it is a network call whose response is discarded. The details `GET` (src/App.jsx:170) is left out as a request; its answer is the `details` input of `CreateHead.PublicUrl`.
- JSON values other than strings, such as a numeric `id`, are not modelled. Fields are absent or strings, and a string is truthy iff it is non-empty.
- `Math.ceil` over floating point is modelled as exact integer ceiling division. The two agree for any array length a browser can hold.
- `vite.config.js` is build configuration with no logic.
- Pagination.PageItems: states nothing for negative page numbers. The page never goes below 1 (`Pagination.ReachablePageInRange`), so `slice` with negative indices is reached only through `Js.Slice`'s general contract.
