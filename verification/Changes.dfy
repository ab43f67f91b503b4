/** The change event that the watcher publishes, the bridge relays and the cache applies. */
module Changes {

  datatype ChangeKind = Unspecified | Added | Updated | Deleted | Renamed | RescanRequired

  /** Sequence 0 stands for an event without a sequence number. */
  datatype Change = Change(sequence: nat, kind: ChangeKind, path: string, oldPath: string)

  const RESCAN: Change := Change(0, RescanRequired, "", "")
}
