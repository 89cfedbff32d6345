/** What the file properties share: the stat fields they read, the file they
    are attached to as an environment, and what their `sync` hands back. */
module PFile {
  import opened RubyValues

  /** The two fields of the file's stat that the mode and owner properties read. */
  datatype Stat = Stat(mode: int, uid: int)

  /** The file as the owning resource sees it when a property asks: its stat
      (`@parent.stat(true)`, None when the file does not exist) and whether
      its path names a directory (`FileTest.directory?`). Each retrieve sees the
      environment current at that moment. */
  datatype FileEnv = FileEnv(stat: Option<Stat>, isDirectory: bool)

  /** What `sync` hands back: nil, the property's change event, or the
      exception it raises. */
  datatype SyncOutcome = NoEvent | Event(name: string) | Raised(error: Error)

  /** The change event both properties declare. */
  const InodeChanged := "inode_changed"

  /** Puppet::State#should: the first desired value, nil when there is none. */
  function ShouldOf(shoulds: seq<RValue>): RValue {
    if shoulds == [] then Nil else shoulds[0]
  }

  /** Puppet::State#insync?, which belongs to the base class and is assumed
      here: in sync when nothing is desired or `is` equals a desired value. */
  predicate InSync(actual: RValue, shoulds: seq<RValue>) {
    shoulds == [] || actual in shoulds
  }
}
