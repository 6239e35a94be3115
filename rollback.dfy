/**
 * What rolling back a recorded `create_sequence` executes: the recorder
 * inverts it into `drop_sequence` with the same arguments, and the drop
 * statement built from those arguments.
 */
module Rollback {
  import opened Ruby
  import Opt = SequenceOptions
  import Recorded = CommandRecorder
  import SequenceStatements

  /**
   * Rolling back `create_sequence(name, options)` runs `drop_sequence(name,
   * options)`, whatever the options; when they carry neither `if_exists` nor
   * `drop_behavior`, every create option is ignored and the plain
   * `DROP SEQUENCE <q> RESTRICT` runs.
   */
  lemma RollbackOfCreate(quote: string -> string, name: string, options: Opt.Options)
    ensures var args := [Recorded.Plain(Str(name)), Recorded.Hash(options)];
      Recorded.Invert(Recorded.CreateSequence, args) == Recorded.Reversed(Recorded.Inverse(Recorded.DropSequence, args))
    ensures Opt.IfExists !in options && Opt.DropBehavior !in options ==>
      SequenceStatements.DropStatement(quote, name, options) == "DROP SEQUENCE" + (" " + quote(name)) + " RESTRICT"
  {
    if Opt.IfExists !in options && Opt.DropBehavior !in options {
      SequenceStatements.DropIgnoresUnreadOptions(quote, name, options);
    }
  }
}
