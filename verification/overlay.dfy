/**
 * The `/overlay` endpoint of the overlay service: validate the query, load the
 * poster, lay out the rating badge and its text, and answer with a PNG or an error.
 * Loading the poster is a parameter; what the canvas is asked to draw is returned
 * as a `Scene` instead of pixels.
 */
module Overlay {
  import opened Wrappers
  import opened Js

  /** The query parameters of `GET /overlay`; an absent parameter is `Undefined`. */
  datatype OverlayQuery = OverlayQuery(posterUrl: Field, rating: Field, position: Field)

  /** Where the badge is placed. */
  datatype Position = TopLeft | BottomLeft

  /** A query that passed validation. */
  datatype BadgeRequest = BadgeRequest(posterUrl: string, rating: string, position: Position)

  /** A decoded poster: only its pixel size matters to the layout. */
  datatype Image = Image(width: nat, height: nat)

  /** The badge rectangle given to `fillRect`. */
  datatype Badge = Badge(x: int, y: int, width: real, height: int)

  /** The text given to `fillText` and its anchor point. */
  datatype Caption = Caption(text: string, x: int, y: int)

  /** What is drawn: a canvas of the poster's size, the poster at the origin, the badge and its caption. */
  datatype Scene = Scene(width: nat, height: nat, badge: Badge, caption: Caption)

  datatype Body = Png(scene: Scene) | Message(text: string)

  datatype Response = Response(status: int, headers: seq<(string, string)>, body: Body)

  /** A handled request: the URLs handed to the image loader, and the response sent. */
  datatype Exchange = Exchange(loads: seq<string>, response: Response)

  const BadgeHeight: int := 30
  const Padding: int := 10
  const MinBadgeWidth: real := 50.0
  const BottomLeftLiteral: string := "bottom-left"
  const MissingParameters: string := "Missing required parameters"
  const ErrorPrefix: string := "Error processing image: "
  const PngHeaders: seq<(string, string)> :=
    [("Content-Type", "image/png"), ("Cache-Control", "public, max-age=86400")]

  /** The 400 answer to a query without a poster URL or a rating. */
  const BadRequest: Response := Response(400, [], Message(MissingParameters))

  /** Only the exact text `bottom-left` moves the badge; absent and every other value keep the top-left default. */
  function ParsePosition(position: Field): (p: Position)
    ensures p == BottomLeft <==> position == Text(BottomLeftLiteral)
  {
    if position == Text(BottomLeftLiteral) then BottomLeft else TopLeft
  }

  /** A query is accepted exactly when both the poster URL and the rating are truthy. */
  function Validate(q: OverlayQuery): (r: Option<BadgeRequest>)
    ensures r.Some? <==> Truthy(q.posterUrl) && Truthy(q.rating)
    ensures r.Some? ==> Text(r.value.posterUrl) == q.posterUrl && Text(r.value.rating) == q.rating
    ensures r.Some? ==> (r.value.position == BottomLeft <==> q.position == Text(BottomLeftLiteral))
  {
    if !Truthy(q.posterUrl) || !Truthy(q.rating) then None
    else Some(BadgeRequest(q.posterUrl.s, q.rating.s, ParsePosition(q.position)))
  }

  /** `Math.max(50, width * 0.2)`, over exact reals. */
  function BadgeWidth(width: nat): (w: real)
    ensures w >= MinBadgeWidth && w >= width as real * 0.2
    ensures w == MinBadgeWidth || w == width as real * 0.2
  {
    if width as real * 0.2 > MinBadgeWidth then width as real * 0.2 else MinBadgeWidth
  }

  /**
   * The badge rectangle: a fixed height and left padding, the scaled width, and a
   * top edge either at the padding or so that the badge ends one padding above the
   * poster's bottom edge. The bottom-left top edge is not clamped at zero.
   */
  function Layout(image: Image, p: Position): (b: Badge)
    ensures b.height == BadgeHeight && b.x == Padding
    ensures b.width >= MinBadgeWidth && b.width >= image.width as real * 0.2
    ensures b.width == MinBadgeWidth || b.width == image.width as real * 0.2
    ensures p == TopLeft ==> b.y == Padding
    ensures p == BottomLeft ==> b.y + b.height + Padding == image.height
  {
    var y := if p == BottomLeft then image.height - BadgeHeight - Padding else Padding;
    Badge(Padding, y, BadgeWidth(image.width), BadgeHeight)
  }

  /** The badge text is the star prefix and the rating verbatim, anchored 8 right of and 20 below the badge corner. */
  function CaptionFor(b: Badge, rating: string): (l: Caption)
    ensures |l.text| == |Star| + |rating|
    ensures StartsWith(l.text, Star) && l.text[|Star|..] == rating
    ensures l.x == b.x + 8 && l.y == b.y + 20
  {
    Caption(Star + rating, b.x + 8, b.y + 20)
  }

  /** The canvas has the poster's size; the badge and its caption follow from the request. */
  function Render(req: BadgeRequest, image: Image): (s: Scene)
    ensures s.width == image.width && s.height == image.height
    ensures s.badge == Layout(image, req.position)
    ensures StartsWith(s.caption.text, Star) && s.caption.text[|Star|..] == req.rating
    ensures s.caption.x == s.badge.x + 8 && s.caption.y == s.badge.y + 20
  {
    var b := Layout(image, req.position);
    Scene(image.width, image.height, b, CaptionFor(b, req.rating))
  }

  /**
   * The answer once the loader has run: a PNG with the image and caching headers on
   * success, a 500 carrying the thrown message, without those
   * headers, on failure (the loader throws before they are set).
   */
  function Respond(req: BadgeRequest, loaded: Result<Image>): (r: Response)
    ensures r.status == 200 <==> loaded.Ok?
    ensures loaded.Ok? ==> r.headers == PngHeaders && r.body.Png?
    ensures loaded.Ok? ==> r.body == Png(Render(req, loaded.value))
    ensures loaded.Ok? ==> r.body.scene.width == loaded.value.width && r.body.scene.height == loaded.value.height
    ensures loaded.Err? ==> r == Response(500, [], Message(ErrorPrefix + loaded.message))
  {
    match loaded
    case Ok(image) => Response(200, PngHeaders, Png(Render(req, image)))
    case Err(message) => Response(500, [], Message(ErrorPrefix + message))
  }

  /**
   * The whole handler. A query without a truthy poster URL or rating is answered
   * with 400 before anything is loaded; otherwise the poster URL is loaded exactly once.
   */
  function HandleOverlay(q: OverlayQuery, load: string -> Result<Image>): (x: Exchange)
    ensures x.response.status in {200, 400, 500}
    ensures x.response.status == 400 <==> !Truthy(q.posterUrl) || !Truthy(q.rating)
    ensures x.response.status == 400 ==> x.loads == [] && x.response == BadRequest
    ensures x.response.status != 400 ==> x.loads == [q.posterUrl.s]
    ensures x.response.status == 500 ==>
              && load(q.posterUrl.s).Err?
              && x.response.headers == []
              && x.response.body == Message(ErrorPrefix + load(q.posterUrl.s).message)
    ensures x.response.status == 200 ==>
              && load(q.posterUrl.s).Ok?
              && x.response.headers == PngHeaders
              && x.response.body == Png(Render(BadgeRequest(q.posterUrl.s, q.rating.s, ParsePosition(q.position)),
                                               load(q.posterUrl.s).value))
  {
    match Validate(q)
    case None => Exchange([], BadRequest)
    case Some(req) => Exchange([req.posterUrl], Respond(req, load(req.posterUrl)))
  }

  /** A rejected query gets the same answer whatever the loader would have produced. */
  lemma RejectionIgnoresLoader(q: OverlayQuery, load1: string -> Result<Image>, load2: string -> Result<Image>)
    requires !Truthy(q.posterUrl) || !Truthy(q.rating)
    ensures HandleOverlay(q, load1) == HandleOverlay(q, load2)
    ensures HandleOverlay(q, load1).loads == []
  {
  }

  /** Width is exactly the 50 floor for posters up to 250 wide, and above it beyond that. */
  lemma BadgeWidthFloor(image: Image, p: Position)
    ensures image.width <= 250 <==> Layout(image, p).width == MinBadgeWidth
    ensures image.width > 250 ==> Layout(image, p).width == image.width as real * 0.2
  {
  }

  /** Absent, `top-left` and any unrecognised position lay the badge out identically. */
  lemma UnrecognisedPositionIsTopLeft(image: Image, position: Field)
    requires position != Text(BottomLeftLiteral)
    ensures Layout(image, ParsePosition(position)) == Layout(image, ParsePosition(Undefined))
    ensures Layout(image, ParsePosition(position)) == Layout(image, ParsePosition(Text("top-left")))
    ensures Layout(image, ParsePosition(position)).y == Padding
  {
  }

  /** The bottom-left top edge goes negative on posters shorter than 40 pixels. */
  lemma BottomLeftUnclamped(image: Image)
    ensures Layout(image, BottomLeft).y < 0 <==> image.height < BadgeHeight + Padding
  {
  }

  /** A 400x600 poster rated "8.5": badge (10,10)-(90,40), or (10,560)-(90,590) at the bottom-left. */
  lemma PosterScenario()
    ensures Render(BadgeRequest("p", "8.5", TopLeft), Image(400, 600))
      == Scene(400, 600, Badge(10, 10, 80.0, 30), Caption("★ 8.5", 18, 30))
    ensures Layout(Image(400, 600), BottomLeft) == Badge(10, 560, 80.0, 30)
  {
  }
}
