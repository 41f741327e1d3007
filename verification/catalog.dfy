/** The catalog handler: the upstream catalog with every entry's name starred. */
module Catalog {
  import opened Wrappers
  import opened Js
  import opened Cinemeta

  datatype CatalogResponse = CatalogResponse(metas: seq<Meta>)

  /** `meta.name = \`★ ${meta.name}\``: the name gains the star prefix, nothing else changes. */
  function Starred(m: Meta): (r: Meta)
    ensures r.name.Text? && StartsWith(r.name.s, Star)
    ensures r.name.s[|Star|..] == Interpolate(m.name)
    ensures r.(name := m.name) == m
  {
    m.(name := Text(Star + Interpolate(m.name)))
  }

  /** The catalog's `map` over its entries: same length, same order, each entry starred. */
  function StarAll(ms: seq<Meta>): (r: seq<Meta>)
    ensures |r| == |ms|
    ensures forall i :: 0 <= i < |ms| ==> r[i] == Starred(ms[i])
  {
    if ms == [] then [] else [Starred(ms[0])] + StarAll(ms[1..])
  }

  /** Removes the star prefix again, when present. */
  function Unstar(name: string): (r: string)
    ensures StartsWith(name, Star) ==> Star + r == name
    ensures !StartsWith(name, Star) ==> r == name
  {
    if StartsWith(name, Star) then name[|Star|..] else name
  }

  /** Unstarring a renamed entry gives back the text of its original name. */
  lemma UnstarStarAll(ms: seq<Meta>)
    ensures forall i :: 0 <= i < |ms| ==>
      Unstar(StarAll(ms)[i].name.s) == Interpolate(ms[i].name) && StarAll(ms)[i].(name := ms[i].name) == ms[i]
  {
  }

  /** Renaming acts entry by entry, so it distributes over concatenation of catalogs. */
  lemma StarAllAppend(a: seq<Meta>, b: seq<Meta>)
    ensures StarAll(a + b) == StarAll(a) + StarAll(b)
  {
  }

  /**
   * The catalog handler once the upstream fetch has been awaited: no entries when
   * `type` or `id` is falsy, when the fetch threw, or when the document has no
   * `metas` (the `map` call throws); the starred entries otherwise.
   */
  function HandleCatalog(kind: Field, id: Field, upstream: (string, string) -> Result<CatalogDoc>): (r: CatalogResponse)
    ensures !Truthy(kind) || !Truthy(id) ==> r.metas == []
    ensures Truthy(kind) && Truthy(id) ==>
              match upstream(kind.s, id.s)
              case Ok(CatalogDoc(Some(ms))) => r.metas == StarAll(ms)
              case _ => r.metas == []
  {
    if !Truthy(kind) || !Truthy(id) then CatalogResponse([])
    else
      match upstream(kind.s, id.s)
      case Err(_) => CatalogResponse([])
      case Ok(doc) =>
        match doc.metas
        case None => CatalogResponse([])
        case Some(ms) => CatalogResponse(StarAll(ms))
  }

  /** Every entry the handler returns carries the star prefix on its name. */
  lemma HandledEntriesStarred(kind: Field, id: Field, upstream: (string, string) -> Result<CatalogDoc>)
    ensures forall m :: m in HandleCatalog(kind, id, upstream).metas ==> m.name.Text? && StartsWith(m.name.s, Star)
  {
  }
}
