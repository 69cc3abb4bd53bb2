/**
 * The catalog data loaded from the dataset: the genre -> rhythm -> structure
 * hierarchy and the category catalogs (category -> items).
 */
module Catalogs {
  import opened Options

  /** A tag-catalog item: a `[name, description]` pair. */
  datatype Entry = Entry(name: string, description: string)

  /** One key of a catalog object with its list of items. */
  datatype Category<T> = Category(name: string, items: seq<T>)

  /** No two categories share a name: the keys of a JSON object. */
  predicate DistinctNames<T>(c: seq<Category<T>>) {
    forall i, j :: 0 <= i < j < |c| ==> c[i].name != c[j].name
  }

  /** A catalog object, its categories in file (and so in iteration) order. */
  type Catalog<T> = c: seq<Category<T>> | DistinctNames(c) witness []

  /** Genre -> list of rhythm items; an item is normally `[rhythm, structure]`. */
  type Hierarchy = map<string, seq<seq<string>>>

  /**
   * The loaded data: the "hierarquia" entry (which may be missing) and the
   * category catalogs under their keys ("publico", "vibe_emocional", ...).
   */
  datatype CoreData = CoreData(hierarquia: Option<Hierarchy>, catalogs: map<string, Catalog<string>>)

  /** `core_data.get("hierarquia", {})`. */
  function HierarchyOf(core: CoreData): Hierarchy {
    if core.hierarquia.Some? then core.hierarquia.value else map[]
  }

  /** `core_data.get(key, {})`. */
  function CatalogOf(core: CoreData, key: string): Catalog<string> {
    if key in core.catalogs then core.catalogs[key] else []
  }

  /** The names of a list of tag-catalog items. */
  function EntryNames(entries: seq<Entry>): set<string> {
    set e | e in entries :: e.name
  }
}
