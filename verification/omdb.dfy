/** The mapping of an OMDB reply to the IMDb data the meta handler uses. */
module Omdb {
  import opened Wrappers
  import opened Js

  /** The properties of an OMDB reply that are read. */
  datatype OmdbDoc = OmdbDoc(
    response: Field, imdbRating: Field, imdbVotes: Field,
    plot: Field, director: Field, actors: Field, year: Field)

  /** The IMDb data handed back to the meta handler. */
  datatype ImdbData = ImdbData(
    rating: Field, votes: Field, plot: Field, director: Field, actors: Field, year: Field)

  const NotAvailable: string := "N/A"

  /** `v !== 'N/A' ? v : null`: OMDB's "not available" marker becomes null. */
  function DropNotAvailable(v: Field): (r: Field)
    ensures r != Text(NotAvailable)
    ensures r == Null <==> v == Null || v == Text(NotAvailable)
    ensures r != Null ==> r == v
    ensures Truthy(r) <==> Truthy(v) && v != Text(NotAvailable)
  {
    if v != Text(NotAvailable) then v else Null
  }

  /** Every field of the reply, with "not available" markers dropped. */
  function Normalize(doc: OmdbDoc): (d: ImdbData)
    ensures d.rating == DropNotAvailable(doc.imdbRating) && d.votes == DropNotAvailable(doc.imdbVotes)
    ensures d.plot == DropNotAvailable(doc.plot) && d.director == DropNotAvailable(doc.director)
    ensures d.actors == DropNotAvailable(doc.actors) && d.year == DropNotAvailable(doc.year)
  {
    ImdbData(
      DropNotAvailable(doc.imdbRating), DropNotAvailable(doc.imdbVotes), DropNotAvailable(doc.plot),
      DropNotAvailable(doc.director), DropNotAvailable(doc.actors), DropNotAvailable(doc.year))
  }

  /** No field of normalized data is the "not available" marker. */
  predicate Clean(d: ImdbData) {
    && d.rating != Text(NotAvailable) && d.votes != Text(NotAvailable) && d.plot != Text(NotAvailable)
    && d.director != Text(NotAvailable) && d.actors != Text(NotAvailable) && d.year != Text(NotAvailable)
  }

  /**
   * `getIMDBRating` once the fetch has been awaited: null when the fetch threw or
   * OMDB answered `Response: 'False'`, the normalized fields otherwise.
   */
  function GetImdbRating(reply: Result<OmdbDoc>): (r: Option<ImdbData>)
    ensures r.None? <==> reply.Err? || reply.value.response == Text("False")
    ensures r.Some? ==> Clean(r.value)
    ensures r.Some? ==> r.value == Normalize(reply.value)
  {
    match reply
    case Err(_) => None
    case Ok(doc) => if doc.response == Text("False") then None else Some(Normalize(doc))
  }
}
