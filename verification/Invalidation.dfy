/** What a change event takes out of the caches. */
module Invalidation {
  import opened Paths
  import opened Changes

  datatype Item = StatOf(path: string) | ContentOf(path: string) | ListingOf(path: string)

  /** A change at `path` shows in everything about `path`, and in the stat and listing of the
      directory that holds it. */
  predicate Affects(path: string, item: Item) {
    item.path == path || (item.path == DirectoryOf(path) && !item.ContentOf?)
  }

  /** The items that the provider takes a change at `path` to affect. */
  predicate Touches(path: string, item: Item) {
    item.path == path || (item.path == Parent(path) && !item.ContentOf?)
  }

  /** An event that leaves the place of the change open stands for a change anywhere. */
  predicate Anywhere(change: Change) {
    || change.kind.RescanRequired? || change.kind.Unspecified?
    || Normalize(change.path) == ""
    || (change.kind.Renamed? && Normalize(change.oldPath) == "")
  }

  predicate Drops(change: Change, item: Item) {
    || Anywhere(change)
    || Touches(Normalize(change.path), item)
    || (change.kind.Renamed? && Touches(Normalize(change.oldPath), item))
  }

  lemma TouchesIsAffects(path: string, item: Item)
    requires Canonical(path)
    ensures Touches(path, item) <==> Affects(path, item)
  {
    ParentOfCanonical(path);
  }

  datatype Callback = OnRescanRequired | OnChange(change: Change) | OnDisconnected

  predicate CallbackDrops(callback: Callback, item: Item) {
    match callback
    case OnRescanRequired => true
    case OnChange(change) => Drops(change, item)
    case OnDisconnected => false
  }
}
