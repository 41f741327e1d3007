/**
 * The documents the addon reads from the upstream Cinemeta addon. Only the
 * properties the handlers touch are spelled out; the rest of an entry is carried
 * through as an uninterpreted map.
 */
module Cinemeta {
  import opened Wrappers
  import opened Js

  /** One catalog or meta entry. */
  datatype Meta = Meta(id: Field, imdbId: Field, name: Field, description: Field, rest: map<string, string>)

  /** The catalog document: `metas` is `None` when the property is missing. */
  datatype CatalogDoc = CatalogDoc(metas: Option<seq<Meta>>)

  /** The meta document: `meta` is `None` when the property is missing or falsy. */
  datatype MetaDoc = MetaDoc(meta: Option<Meta>)
}
