/**
 * The sequence commands of a migration's command recorder: recording
 * `create_sequence`, `alter_sequence` and `drop_sequence` in the host's
 * command log, and the inversion policy used when a reversible migration is
 * rolled back (`create_sequence` becomes `drop_sequence`; the other two are
 * irreversible).
 */
module CommandRecorder {
  import opened Ruby
  import Opt = SequenceOptions

  /** The recorded verbs this extension adds (`:create_sequence`, `:alter_sequence`, `:drop_sequence`). */
  datatype Verb = CreateSequence | AlterSequence | DropSequence

  /** One positional argument: a plain value (the sequence name) or an options hash. */
  datatype Arg = Plain(value: Value) | Hash(options: Opt.Options)

  /** The block passed with a command, identified only by which one it was. */
  datatype Block = NoBlock | Given(id: nat)

  /** One entry of the command log: `[verb, args, block]`. */
  datatype Command = Command(verb: Verb, args: seq<Arg>, block: Block)

  /** An inverse command: `[verb, args]`. */
  datatype Inverse = Inverse(verb: Verb, args: seq<Arg>)

  /** What inverting a command gives: the inverse, or an `ActiveRecord::IrreversibleMigration` with its message. */
  datatype Inversion = Reversed(inverse: Inverse) | Irreversible(message: string)

  const AlterMessage: string := "Alter sequence is irreversible."
  const DropMessage: string := "Drop sequence is irreversible."

  // ---------------------------------------------------------------- inversion policy

  /** `invert_create_sequence(args)`: drop the sequence, passing the same arguments. */
  function InvertCreateSequence(args: seq<Arg>): (r: Inversion)
    ensures r.Reversed?
    ensures r.inverse.verb == DropSequence && r.inverse.args == args
  {
    Reversed(Inverse(DropSequence, args))
  }

  /** `invert_alter_sequence(args)`: always irreversible, whatever the arguments. */
  function InvertAlterSequence(args: seq<Arg>): (r: Inversion)
    ensures r.Irreversible? && r.message == AlterMessage
  {
    Irreversible(AlterMessage)
  }

  /** `invert_drop_sequence(args)`: always irreversible, whatever the arguments. */
  function InvertDropSequence(args: seq<Arg>): (r: Inversion)
    ensures r.Irreversible? && r.message == DropMessage
  {
    Irreversible(DropMessage)
  }

  /** The `invert_<verb>` method the recorder calls for a command of `verb`. */
  function Invert(verb: Verb, args: seq<Arg>): Inversion {
    match verb
    case CreateSequence => InvertCreateSequence(args)
    case AlterSequence => InvertAlterSequence(args)
    case DropSequence => InvertDropSequence(args)
  }

  /**
   * Only `create_sequence` can be inverted; its inverse keeps the arguments,
   * and the irreversible ones name the verb in their message.
   */
  lemma InvertPolicy(verb: Verb, args: seq<Arg>)
    ensures Invert(verb, args).Reversed? <==> verb == CreateSequence
    ensures Invert(verb, args).Reversed? ==> Invert(verb, args).inverse == Inverse(DropSequence, args)
    ensures Invert(verb, args).Irreversible? ==>
      Invert(verb, args).message == (if verb == AlterSequence then AlterMessage else DropMessage)
  {
    match verb
    case CreateSequence =>
    case AlterSequence =>
    case DropSequence =>
  }

  /** The inverse of `create_sequence` is a `drop_sequence`, which itself cannot be inverted. */
  lemma InverseOfInverseFails(args: seq<Arg>)
    ensures var inv := Invert(CreateSequence, args).inverse;
      Invert(inv.verb, inv.args) == Irreversible(DropMessage)
  {
    InvertPolicy(CreateSequence, args);
  }

  // ---------------------------------------------------------------- the command log

  /** The positions of the log holding an entry of `verb`. */
  ghost function Positions(log: seq<Command>, verb: Verb): set<nat> {
    set i: nat | i < |log| && log[i].verb == verb
  }

  /** `commands.count { |cmd| cmd.first == verb }`: the number of entries whose verb is `verb`. */
  function CountVerb(log: seq<Command>, verb: Verb): (n: nat)
    ensures n == |Positions(log, verb)|
  {
    if log == [] then
      assert Positions(log, verb) == {};
      0
    else
      var init, last := log[..|log| - 1], |log| - 1;
      assert Positions(log, verb)
        == Positions(init, verb) + (if log[last].verb == verb then {last} else {});
      CountVerb(init, verb) + (if log[last].verb == verb then 1 else 0)
  }

  /** Counting over a log with one more entry at the end. */
  lemma {:induction false} CountAppend(log: seq<Command>, more: seq<Command>, verb: Verb)
    ensures CountVerb(log + more, verb) == CountVerb(log, verb) + CountVerb(more, verb)
    decreases |more|
  {
    if more == [] {
      assert log + more == log;
    } else {
      var init := more[..|more| - 1];
      assert (log + more)[..|log + more| - 1] == log + init;
      CountAppend(log, init, verb);
    }
  }

  /**
   * The host's command log. `record` appends one entry per call and never
   * merges or drops an earlier one.
   */
  class Recorder {
    var commands: seq<Command>

    /** A new recorder has an empty log. */
    constructor ()
      ensures commands == []
    {
      commands := [];
    }

    /** `record(verb, args, &block)`: append `[verb, args, block]`. */
    method Record(verb: Verb, args: seq<Arg>, block: Block)
      modifies this
      ensures commands == old(commands) + [Command(verb, args, block)]
    {
      commands := commands + [Command(verb, args, block)];
    }

    /** `create_sequence(*args, &block)` */
    method CreateSequence(args: seq<Arg>, block: Block)
      modifies this
      ensures commands == old(commands) + [Command(Verb.CreateSequence, args, block)]
    {
      Record(Verb.CreateSequence, args, block);
    }

    /** `alter_sequence(*args, &block)` */
    method AlterSequence(args: seq<Arg>, block: Block)
      modifies this
      ensures commands == old(commands) + [Command(Verb.AlterSequence, args, block)]
    {
      Record(Verb.AlterSequence, args, block);
    }

    /** `drop_sequence(*args, &block)` */
    method DropSequence(args: seq<Arg>, block: Block)
      modifies this
      ensures commands == old(commands) + [Command(Verb.DropSequence, args, block)]
    {
      Record(Verb.DropSequence, args, block);
    }
  }

  /** Recording the same command twice leaves two entries of its verb: nothing is deduplicated. */
  lemma NoDeduplication(log: seq<Command>, c: Command)
    ensures CountVerb(log + [c] + [c], c.verb) == CountVerb(log, c.verb) + 2
  {
    CountAppend(log, [c], c.verb);
    CountAppend(log + [c], [c], c.verb);
    assert CountVerb([c], c.verb) == 1 by {
      assert [c][..0] == [];
    }
  }

  /** Two `create_sequence` calls on a fresh recorder leave two `create_sequence` entries. */
  method RecordTwice(args: seq<Arg>) returns (count: nat)
    ensures count == 2
  {
    var recorder := new Recorder();
    recorder.CreateSequence(args, NoBlock);
    recorder.CreateSequence(args, NoBlock);
    NoDeduplication([], Command(Verb.CreateSequence, args, NoBlock));
    count := CountVerb(recorder.commands, Verb.CreateSequence);
  }
}
