/** The options hash the sequence methods take. */
module SequenceOptions {
  import opened Ruby

  /** The names of the symbol keys the sequence methods read. */
  const ReadNames: set<string> := {
    "if_not_exists", "if_exists", "data_type", "increment_by", "minvalue", "maxvalue",
    "start", "restart", "cache", "cycle", "owned_by", "drop_behavior"
  }

  /** The name of a symbol key none of the methods reads. */
  type UnreadName = s: string | s !in ReadNames witness "other"

  /**
   * The symbol keys the sequence methods read (`:if_not_exists`, `:data_type`,
   * ...); `Other` stands for any other symbol key a caller may pass, which the
   * methods ignore. Its name is never one of the read names, so every symbol
   * key has exactly one `Key`.
   */
  datatype Key =
    | IfNotExists
    | IfExists
    | DataType
    | IncrementBy
    | MinValue
    | MaxValue
    | Start
    | Restart
    | Cache
    | Cycle
    | OwnedBy
    | DropBehavior
    | Other(symbol: UnreadName)

  /** The Ruby symbol a key stands for, without its colon. */
  function Name(key: Key): (s: string)
    ensures key.Other? <==> s !in ReadNames
  {
    match key
    case IfNotExists => "if_not_exists"
    case IfExists => "if_exists"
    case DataType => "data_type"
    case IncrementBy => "increment_by"
    case MinValue => "minvalue"
    case MaxValue => "maxvalue"
    case Start => "start"
    case Restart => "restart"
    case Cache => "cache"
    case Cycle => "cycle"
    case OwnedBy => "owned_by"
    case DropBehavior => "drop_behavior"
    case Other(symbol) => symbol
  }

  /** Two keys with the same symbol name are the same key: no symbol has two spellings. */
  lemma NameInjective(a: Key, b: Key)
    ensures Name(a) == Name(b) ==> a == b
  {
  }

  /** An options hash: key presence is kept, so `restart: nil` differs from no `restart`. */
  type Options = map<Key, Value>
}
