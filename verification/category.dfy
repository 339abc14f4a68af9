/**
 * constant.Category: the fixed set of capability categories. A category is
 * a named string type, so it is a one-field datatype here.
 */
module Categories {
  datatype Category = Category(name: string)

  const Storage := Category("storage")
  const General := Category("general")
  const Network := Category("network")
  const KVStore := Category("kvstore")
  const Trigger := Category("trigger")
  const Service := Category("service")
  const SQLStore := Category("sqlstore")
  const Database := Category("database")
  const CacheStore := Category("cachestore")

  /** The nine declared categories. */
  const All: seq<Category> := [Storage, General, Network, KVStore, Trigger, Service, SQLStore, Database, CacheStore]

  /** CategoryString: the category's underlying string, unchanged, so converting back gives the same category. */
  function CategoryString(c: Category): (s: string)
    ensures Category(s) == c
  {
    c.name
  }

  /** The nine categories are told apart by their strings, and none of them is empty. */
  lemma CategoriesDistinct()
    ensures |All| == 9
    ensures forall i, j :: 0 <= i < j < |All| ==> CategoryString(All[i]) != CategoryString(All[j])
    ensures forall i :: 0 <= i < |All| ==> |CategoryString(All[i])| > 0
  {
  }
}
