/**
 * The meta handler: pick the entry's IMDb id, look its data up on OMDB, and
 * enrich the entry's name and description with it.
 */
module MetaEnrichment {
  import opened Wrappers
  import opened Js
  import opened Cinemeta
  import opened Omdb

  datatype MetaResponse = MetaResponse(meta: Option<Meta>)

  const IdPrefix: string := "tt"

  /**
   * `meta.imdbId || (meta.id && meta.id.startsWith('tt') ? meta.id : null)`: the
   * explicit IMDb id when truthy, else the entry's own id when it looks like one.
   */
  function SelectImdbId(m: Meta): (r: Option<string>)
    ensures r.Some? ==> r.value != ""
    ensures r.Some? ==> Text(r.value) == m.imdbId || (Text(r.value) == m.id && StartsWith(r.value, IdPrefix))
    ensures Truthy(m.imdbId) ==> r == Some(m.imdbId.s)
    ensures r.None? <==> !Truthy(m.imdbId) && !(m.id.Text? && StartsWith(m.id.s, IdPrefix))
  {
    if Truthy(m.imdbId) then Some(m.imdbId.s)
    else if Truthy(m.id) && StartsWith(m.id.s, IdPrefix) then Some(m.id.s)
    else None
  }

  /** The lookup found data with a truthy rating: only then is the entry enriched. */
  predicate Rated(data: Option<ImdbData>) {
    data.Some? && Truthy(data.value.rating)
  }

  /** The name with the IMDb rating appended. */
  function RatedName(name: Field, rating: Field): (r: string)
    ensures StartsWith(r, Interpolate(name))
    ensures r[|Interpolate(name)|..] == " (IMDb: " + Interpolate(rating) + ")"
  {
    Interpolate(name) + " (IMDb: " + Interpolate(rating) + ")"
  }

  const RatingHeading: string := "\n\nIMDb: "

  /**
   * The line appended to the description: after a blank line, the rating out of ten
   * and the vote count in parentheses, both rendered as template-literal text (so a
   * null vote count reads `null votes`).
   */
  function RatingLine(d: ImdbData): (r: string)
    ensures StartsWith(r, RatingHeading + Interpolate(d.rating) + "/10 (")
    ensures r[|RatingHeading + Interpolate(d.rating) + "/10 ("|..] == Interpolate(d.votes) + " votes)"
    ensures d.votes == Null ==> r[|r| - |"(null votes)"|..] == "(null votes)"
  {
    var head := RatingHeading + Interpolate(d.rating) + "/10 (";
    var r := head + (Interpolate(d.votes) + " votes)");
    assert r[..|head|] == head;
    r
  }

  /**
   * Appends `lead` (such as `"\nDirector: "`) and the value when the value is truthy and not already
   * somewhere in the description; the description is left alone otherwise.
   */
  function AppendIfAbsent(description: string, lead: string, value: Field): (r: string)
    ensures StartsWith(r, description)
    ensures r != description <==> Truthy(value) && !Includes(description, value.s)
    ensures r != description ==> r == description + lead + value.s
    ensures Truthy(value) ==> Includes(r, value.s)
    ensures forall t :: Includes(description, t) ==> Includes(r, t)
  {
    if Truthy(value) && !Includes(description, value.s) then
      var line := lead + value.s;
      var r := description + line;
      assert r[..|description|] == description;
      assert Includes(r, value.s) by {
        IncludesAppended(description + lead, value.s);
        assert r == description + lead + value.s;
      }
      assert forall t :: Includes(description, t) ==> Includes(r, t) by {
        forall t | Includes(description, t) ensures Includes(r, t) {
          IncludesExtended(description, line, t);
        }
      }
      r
    else
      assert description[..|description|] == description;
      description
  }

  /** The text `AppendIfAbsent` adds: the whole line, or nothing. */
  lemma AppendIfAbsentShape(description: string, lead: string, value: Field)
    ensures var line := if Truthy(value) && !Includes(description, value.s) then lead + value.s else "";
            AppendIfAbsent(description, lead, value) == description + line
  {
  }

  /** The enriched description: the rating line, then the Director and Stars lines when new. */
  function EnrichDescription(description: string, d: ImdbData): (r: string)
    ensures StartsWith(r, description + RatingLine(d))
    ensures var withRating := description + RatingLine(d);
            var directorLine :=
              if Truthy(d.director) && !Includes(withRating, d.director.s) then "\nDirector: " + d.director.s else "";
            var starsLine :=
              if Truthy(d.actors) && !Includes(withRating + directorLine, d.actors.s) then "\nStars: " + d.actors.s else "";
            r == withRating + directorLine + starsLine
    ensures Truthy(d.director) ==> Includes(r, d.director.s)
    ensures Truthy(d.actors) ==> Includes(r, d.actors.s)
  {
    var withRating := description + RatingLine(d);
    var withDirector := AppendIfAbsent(withRating, "\nDirector: ", d.director);
    var withStars := AppendIfAbsent(withDirector, "\nStars: ", d.actors);
    AppendIfAbsentShape(withRating, "\nDirector: ", d.director);
    AppendIfAbsentShape(withDirector, "\nStars: ", d.actors);
    assert withStars[..|withRating|] == withRating;
    withStars
  }

  /** A director already named in the description gets no Director line: only the Stars rule still applies. */
  lemma {:induction false} DirectorAlreadyNamed(description: string, d: ImdbData)
    requires d.director.Text? && Includes(description, d.director.s)
    ensures EnrichDescription(description, d) == AppendIfAbsent(description + RatingLine(d), "\nStars: ", d.actors)
  {
    IncludesExtended(description, RatingLine(d), d.director.s);
  }

  /**
   * The meta entry after the lookup: unchanged unless the data is rated; when rated
   * the name gets the rating, and the description is enriched only when both it and
   * the plot are truthy.
   */
  function Enrich(m: Meta, data: Option<ImdbData>): (r: Meta)
    ensures r.id == m.id && r.imdbId == m.imdbId && r.rest == m.rest
    ensures !Rated(data) ==> r == m
    ensures r.name != m.name <==> Rated(data)
    ensures Rated(data) ==> r.name == Text(RatedName(m.name, data.value.rating))
    ensures r.description != m.description <==>
              Rated(data) && Truthy(m.description) && Truthy(data.value.plot)
    ensures r.description != m.description ==>
              && r.description.Text?
              && r.description == Text(EnrichDescription(m.description.s, data.value))
              && StartsWith(r.description.s, m.description.s + RatingLine(data.value))
              && (Truthy(data.value.director) ==> Includes(r.description.s, data.value.director.s))
              && (Truthy(data.value.actors) ==> Includes(r.description.s, data.value.actors.s))
  {
    if !Rated(data) then m
    else
      var d := data.value;
      var named := m.(name := Text(RatedName(m.name, d.rating)));
      assert named.name != m.name by {
        if m.name.Text? {
          assert |RatedName(m.name, d.rating)| > |m.name.s|;
        }
      }
      if Truthy(m.description) && Truthy(d.plot) then
        var description := EnrichDescription(m.description.s, d);
        assert |description| > |m.description.s|;
        named.(description := Text(description))
      else
        named
  }

  /**
   * The meta handler once its fetches have been awaited: null when `type` or `id`
   * is falsy, the Cinemeta fetch threw, or the document has no `meta`; the entry
   * unchanged when no IMDb id can be picked; the enriched entry otherwise.
   */
  function HandleMeta(
    kind: Field, id: Field,
    upstream: (string, string) -> Result<MetaDoc>,
    omdb: string -> Result<OmdbDoc>): (r: MetaResponse)
    ensures r.meta.None? <==>
              || !Truthy(kind) || !Truthy(id)
              || upstream(kind.s, id.s).Err? || upstream(kind.s, id.s).value.meta.None?
    ensures r.meta.Some? ==>
              var m := upstream(kind.s, id.s).value.meta.value;
              && r.meta.value.id == m.id && r.meta.value.imdbId == m.imdbId && r.meta.value.rest == m.rest
              && (SelectImdbId(m).None? ==> r.meta.value == m)
              && (SelectImdbId(m).Some? ==> r.meta.value == Enrich(m, GetImdbRating(omdb(SelectImdbId(m).value))))
  {
    if !Truthy(kind) || !Truthy(id) then MetaResponse(None)
    else
      match upstream(kind.s, id.s)
      case Err(_) => MetaResponse(None)
      case Ok(doc) =>
        match doc.meta
        case None => MetaResponse(None)
        case Some(m) =>
          match SelectImdbId(m)
          case None => MetaResponse(Some(m))
          case Some(imdbId) => MetaResponse(Some(Enrich(m, GetImdbRating(omdb(imdbId)))))
  }

  /** OMDB is consulted only through the selected id: without one the lookup cannot affect the answer. */
  lemma LookupOnlyWithImdbId(
    kind: Field, id: Field, upstream: (string, string) -> Result<MetaDoc>,
    omdb1: string -> Result<OmdbDoc>, omdb2: string -> Result<OmdbDoc>)
    requires Truthy(kind) && Truthy(id) && upstream(kind.s, id.s).Ok? && upstream(kind.s, id.s).value.meta.Some?
    requires SelectImdbId(upstream(kind.s, id.s).value.meta.value).None?
    ensures HandleMeta(kind, id, upstream, omdb1) == HandleMeta(kind, id, upstream, omdb2)
  {
  }

  /** A rejected OMDB lookup (`Response: 'False'` or a thrown fetch) leaves the entry exactly as Cinemeta sent it. */
  lemma FailedLookupKeepsEntry(m: Meta, reply: Result<OmdbDoc>)
    requires reply.Err? || reply.value.response == Text("False")
    ensures Enrich(m, GetImdbRating(reply)) == m
  {
  }
}
