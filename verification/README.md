# IMDb Ratings addon: poster badge and metadata enrichment

A Dafny model of the two pieces of logic in the IMDb Ratings Stremio addon that do
more than forward HTTP requests:

- the **overlay service** (`GET /overlay`), which loads a poster, lays out a
  semi-transparent rating badge and its `★ <rating>` text, and answers with a PNG
  or an error (module `Overlay`, file `overlay.dfy`);
- the **addon handlers**. The catalog handler stars every entry name of the
  upstream Cinemeta catalog (`Catalog`). The meta handler picks an entry's IMDb id,
  maps the OMDB reply (`Omdb`) and enriches the entry's name and description
  (`MetaEnrichment`).

JavaScript values are modelled by `Js.Field = Undefined | Null | Text(s)`. A field is
truthy only when it is a non-empty text. `Js.Interpolate` renders a field the way a
template literal does, so an undefined name becomes `"undefined"` and a null vote
count becomes `"null"`. `String.prototype.includes` is `Js.Includes`, a scan whose
contract is the existence of an occurrence. Every network call is a function
parameter: the poster loader, the Cinemeta catalog and meta fetches keyed by
`(type, id)`, and the OMDB lookup keyed by IMDb id. A thrown error is the `Err`
case of `Wrappers.Result`. Drawing is not modelled as pixels. The overlay's
successful answer carries a `Scene`: the canvas size, the badge rectangle given to
`fillRect`, and the text and anchor given to `fillText`.

Two consequences of the code worth noting. The bottom-left badge of a 400x600
poster has its top edge at 600 - 30 - 10 = 560, which `Overlay.PosterScenario`
proves. And a PNG encode failure has no error branch: the stream is created inside
the `try` (overlay-service.js:61), but encode errors the stream emits later, after
the headers are set, are asynchronous and escape the `catch`.

## Model

| member | source | states |
|---|---|---|
| Js.Includes | index.js:114-119 | `s.includes(t)` holds exactly when `t` occurs at some index of `s` |
| Js.Interpolate | index.js:72 | a template literal renders a string as itself, undefined as `undefined` and null as `null` (also at index.js:107 and :111) |
| Overlay.ParsePosition | overlay-service.js:19-46 | the badge moves to the bottom-left exactly when the query's position is the literal `bottom-left`. Absent or any other value means top-left |
| Overlay.Validate | overlay-service.js:19-23 | a query is accepted iff both `posterUrl` and `rating` are truthy. The accepted request carries both verbatim and the parsed position |
| Overlay.BadgeWidth | overlay-service.js:37 | the badge width is at least 50 and at least `W*0.2`, and equals one of them (the maximum) |
| Overlay.Layout | overlay-service.js:37-46 | height is 30 and `x` is 10 for every position. Top-left has `y = 10`. Bottom-left ends the badge exactly 10 above the poster's bottom edge. The width satisfies the max laws |
| Overlay.CaptionFor | overlay-service.js:56 | the text is the star prefix followed by the rating verbatim, with no truncation. It is anchored at `(x+8, y+20)` |
| Overlay.Render | overlay-service.js:27-56 | the canvas has the loaded poster's width and height. The badge is the layout for the request's position. The caption recovers the rating and sits at the anchor offset |
| Overlay.Respond | overlay-service.js:25-65 | the status is 200 iff the load succeeded. Success carries `image/png` and `public, max-age=86400` and exactly the rendered scene for the request and the loaded poster, so a canvas of the poster's size. A load failure is a 500 with `Error processing image: ` + message and no headers, because the loader throws before the headers are set |
| Overlay.HandleOverlay | overlay-service.js:18-66 | the status is always 200, 400 or 500. It is 400 iff `posterUrl` or `rating` is falsy, and then nothing is loaded and the body is `Missing required parameters`. Otherwise the poster URL is loaded exactly once. A 500 carries the thrown message and none of the PNG or caching headers |
| Overlay.RejectionIgnoresLoader | overlay-service.js:21-27 | a rejected query gets the same answer for every loader, and no load happens |
| Overlay.BadgeWidthFloor | overlay-service.js:37 | the width is exactly 50 iff `W <= 250`, and `W*0.2` above that |
| Overlay.UnrecognisedPositionIsTopLeft | overlay-service.js:19-46 | absent, `top-left` and any unrecognised position give identical geometry, with `y = 10` |
| Overlay.BottomLeftUnclamped | overlay-service.js:44-46 | bottom-left `y` is negative iff the poster is shorter than 40 |
| Overlay.PosterScenario | overlay-service.js:30-56 | a 400x600 poster rated 8.5 gets badge (10,10) of width 80, text `★ 8.5` at (18,30), and a bottom-left badge at (10,560) |
| Omdb.DropNotAvailable | index.js:42-47 | the result is never `N/A`. It is null iff the input was `N/A` or null, and otherwise equals the input. It is truthy iff the input was truthy and not `N/A` |
| Omdb.Normalize | index.js:41-48 | each of rating, votes, plot, director, actors and year is the corresponding OMDB property with `N/A` dropped |
| Omdb.GetImdbRating | index.js:30-53 | the result is null iff the fetch threw or `Response` is `'False'`. Otherwise it holds the normalized fields, none of which is `N/A` |
| Catalog.Starred | index.js:72 | the new name starts with the star prefix and the rest is the old name as interpolated. Nothing but the name changes |
| Catalog.StarAll | index.js:70-74 | the renaming keeps the length and the order, and entry `i` of the result is entry `i` of the input starred |
| Catalog.Unstar | index.js:72 | stripping the star prefix is a left inverse of adding it |
| Catalog.UnstarStarAll | index.js:70-74 | unstarring each renamed entry's name gives back its original name text, and its other properties are unchanged |
| Catalog.StarAllAppend | index.js:70-74 | renaming distributes over concatenation of entry lists |
| Catalog.HandleCatalog | index.js:56-81 | no entries when `type` or `id` is falsy, the fetch threw, or `metas` is missing. Otherwise the starred upstream entries |
| Catalog.HandledEntriesStarred | index.js:70-76 | every entry the catalog handler returns has a starred name |
| MetaEnrichment.SelectImdbId | index.js:100 | a selected id is non-empty. It is `meta.imdbId` whenever that is truthy, and otherwise `meta.id` when it starts with `tt`. There is none iff neither applies |
| MetaEnrichment.RatedName | index.js:107 | the enriched name is the old name text followed by ` (IMDb: <rating>)` |
| MetaEnrichment.RatingLine | index.js:111 | the line is exactly a blank line, `IMDb: `, the rating text and `/10 (`, followed by the vote count and ` votes)` and nothing after. Both use template-literal rendering, so a null vote count ends the line with `(null votes)` |
| MetaEnrichment.AppendIfAbsent | index.js:114-119 | the description keeps its prefix. It changes iff the value is truthy and not already included, and then exactly the lead (`\nDirector: ` or `\nStars: `) and the value are added. Afterwards it includes the value and everything it included before |
| MetaEnrichment.EnrichDescription | index.js:111-119 | the result is the original plus the rating line, then `\nDirector: d` only if the director is truthy and not yet included, then `\nStars: a` only if the actors are truthy and not included in the text so far, and nothing else. It includes the director and the actors when they are truthy |
| MetaEnrichment.AppendIfAbsentShape | index.js:114-119 | the append adds either exactly the lead and the value, or nothing |
| MetaEnrichment.DirectorAlreadyNamed | index.js:114-116 | a director already in the original description gets no Director line; only the Stars rule applies |
| MetaEnrichment.Enrich | index.js:102-123 | id, imdbId and other properties are unchanged. The name changes iff the data is non-null with a truthy rating. The description changes iff it is rated and both the description and the plot are truthy, and then it is exactly the enriched description: the rating line, and the Director and Stars lines only when their values are new. It includes the director and the actors |
| MetaEnrichment.HandleMeta | index.js:84-130 | the result is null iff `type` or `id` is falsy, the fetch threw, or there is no `meta`. Otherwise id, imdbId and other properties are kept. The entry is unchanged without a selectable IMDb id, and enriched with the looked-up data otherwise |
| MetaEnrichment.LookupOnlyWithImdbId | index.js:100-103 | when no IMDb id can be selected, the OMDB lookup cannot influence the answer |
| MetaEnrichment.FailedLookupKeepsEntry | index.js:35-38 | an OMDB `Response: 'False'` or a failed fetch leaves the entry as Cinemeta sent it |

## Left out

- Fetching: `loadImage`, the Cinemeta catalog and meta fetches and the OMDB fetch are network I/O. They are function parameters, and the URLs they are built from and the OMDB API key are not modelled.
- Canvas rendering: `drawImage`, `fillRect`, `fillText`, fill styles and the font are foreign rasterisation calls. Only the geometry and the text passed to them are modelled.
- PNG encoding and streaming (`createPNGStream().pipe`) are a foreign encoder plus stream I/O. Encode errors the stream emits asynchronously, after the headers are set, escape the `catch`, so they have no branch in the model.
- `W * 0.2` is computed over exact reals, not IEEE doubles.
- Server plumbing: Express setup, CORS, the `/health` routes, `serveHTTP`, the port and base-URL environment reads, the manifest and console logging.
- Async/await: each awaited call that can throw is a `Result`, and the `catch` blocks are its `Err` branches.
- Query parameters that arrive as arrays (repeated keys) are not modelled. Every parameter is absent or a string.
- JSON values other than strings (numbers, nested objects) in the Cinemeta and OMDB documents are not modelled. The properties read are strings, undefined or null, and the other properties of an entry are an uninterpreted `rest` map.
- The express content type of the plain-text 400 and 500 bodies is not modelled. Only the headers the handler sets itself are.
- JavaScript strings are sequences of UTF-16 code units, while a Dafny `string` is a sequence of code points, so lengths such as that of the badge text are not JavaScript's `.length` for text outside the Basic Multilingual Plane. `includes`, `startsWith` and concatenation behave the same either way.
- In-place mutation: the source renames the upstream catalog entries and the meta entry in place. The model returns new values, which is indistinguishable to the caller.
