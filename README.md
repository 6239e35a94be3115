# PostgreSQL sequence DDL for Active Record, modelled in Dafny

This project models the sequence extension of a Ruby gem for Active Record's
PostgreSQL adapter. It covers two pieces.

- **The sequence methods** `create_sequence`, `alter_sequence` and
  `drop_sequence`. Each one:
  - merges defaults into the caller's options hash (create and drop only);
  - builds a DDL statement by appending to a string buffer, one guarded piece per line;
  - hands the statement to `execute`;
  - reloads the adapter's type map after `execute` returns.
- **The migration command recorder** for those three verbs. It:
  - records each call in the recorder's command log as `[verb, args, block]`;
  - inverts `create_sequence` into `drop_sequence` when a migration is rolled back;
  - refuses to invert `alter_sequence` and `drop_sequence`.

Modules:

- `Ruby` (`ruby.dfy`): the small part of Ruby the methods rely on.
  - Truthiness: only `nil` and `false` are falsy.
  - `Hash#[]`: nil for a missing key.
  - `Hash#reverse_merge`: the caller's keys win, even when their value is nil.
  - String interpolation of values (`to_s`), including decimal integers.
  - `String#upcase` on ASCII letters.
- `SequenceOptions` (`sequence_options.dfy`): the option keys the methods read, plus `Other` for any other symbol key. The name `Other` carries is never one of the twelve read names, so no symbol has two spellings.
- `Layout` (`layout.dfy`): a statement as twelve grammar slots, each holding at most one clause, read in slot order.
- `SequenceStatements` (`sequence_statements.dfy`): the statement each method executes, and the lemmas about it.
  - The statement is given as clauses placed in slots and then rendered.
  - The lemmas cover defaults, presence rules, clause order, the restart rule, the drop-behaviour filter and the texts without options.
- `SequenceMethods` (`sequence_methods.dfy`): the imperative methods.
  - Each buffer-appending line is a method whose contract names the slot it writes.
  - The three builders chain those methods in source order. Each builder is proved to produce exactly the statement of `SequenceStatements`.
  - The `Adapter` class records what the connection sees: one `execute` of that statement, then one type-map reload. The reload happens only when `execute` did not raise.
- `CommandRecorder` (`command_recorder.dfy`): the recorder.
  - The `Recorder` class keeps its command log as a sequence; recording appends.
  - The three inversion functions are modelled, and the policy is proved over every verb.
- `Rollback` (`rollback.dfy`): what a rolled-back `create_sequence` executes. The recorder's inverse is combined with the DROP statement built from the same arguments.

## Model

| member | source | states |
|---|---|---|
| Ruby.ReverseMerge | lib/postgresql_adapter_extensions/sequence_methods.rb:51-59 | every key the caller passed keeps its value (nil included); a default fills only a key the caller did not pass; no other key appears |
| Ruby.Upcase | lib/postgresql_adapter_extensions/sequence_methods.rb:174 | same length, every character upcased (ASCII) |
| Ruby.NatToDecimal | lib/postgresql_adapter_extensions/sequence_methods.rb:66 | interpolating a natural number gives only decimal digits, with no leading zero |
| Ruby.IntToDecimal | lib/postgresql_adapter_extensions/sequence_methods.rb:66 | interpolating an integer gives a non-empty text that starts with `-` exactly when the integer is negative |
| Ruby.DecimalRoundTrip | lib/postgresql_adapter_extensions/sequence_methods.rb:66-70 | reading back the interpolated digits of a natural number gives the number |
| Ruby.IntDecimalRoundTrip | lib/postgresql_adapter_extensions/sequence_methods.rb:67 | the interpolation of any integer, negative ones such as `minvalue: -100` included, is an optional `-` followed by digits, and reading it back gives the integer |
| SequenceStatements.EmitPrefix | lib/postgresql_adapter_extensions/sequence_methods.rb:62-72 | appending clauses with `<<` never alters the text already in the buffer |
| SequenceStatements.StatementStartsWithKeywords | lib/postgresql_adapter_extensions/sequence_methods.rb:61 | every statement begins with its verb's keywords (`CREATE SEQUENCE`, `ALTER SEQUENCE`, `DROP SEQUENCE`; also lines 118, 171) |
| SequenceStatements.ClausesOrdered | lib/postgresql_adapter_extensions/sequence_methods.rb:61-72 | every statement lists its clauses in grammar order, at most one per slot (IF [NOT] EXISTS, name, AS, INCREMENT BY, MIN, MAX, START, RESTART, CACHE, CYCLE, OWNED BY, behaviour) |
| SequenceStatements.CreateHead | lib/postgresql_adapter_extensions/sequence_methods.rb:62-63 | `IF NOT EXISTS` is present iff `if_not_exists` is truthy, and then sits right before the quoted name; otherwise the name comes first |
| SequenceStatements.CreateRules | lib/postgresql_adapter_extensions/sequence_methods.rb:65-72 | exactly one of MINVALUE v / NO MINVALUE, MAXVALUE v / NO MAXVALUE, CYCLE / NO CYCLE; AS, INCREMENT BY, START WITH, CACHE present iff their option is truthy, with its text; OWNED BY iff `owned_by` is truthy, never OWNED BY NONE; no RESTART, IF EXISTS or behaviour |
| SequenceStatements.CreateDefaultsFillAbsentKeys | lib/postgresql_adapter_extensions/sequence_methods.rb:51-54 | START WITH, INCREMENT BY and CACHE carry 1 only when the caller omitted the key; a key passed (even nil or false) is used as given |
| SequenceStatements.CreateFlagDefaults | lib/postgresql_adapter_extensions/sequence_methods.rb:55-58 | CYCLE and IF NOT EXISTS appear only when the caller passed a truthy value; no default exists for `minvalue`/`maxvalue`, so NO MINVALUE / NO MAXVALUE follow the caller alone |
| SequenceStatements.CreateMergesOnlyItsDefaults | lib/postgresql_adapter_extensions/sequence_methods.rb:51-59 | the defaults cover exactly start, increment_by, cache, cycle, data_type, owned_by and if_not_exists; every other key (minvalue, maxvalue, restart, if_exists, drop_behavior, unknown ones) reads the caller's value unchanged |
| SequenceStatements.CreateDefaultClauses | lib/postgresql_adapter_extensions/sequence_methods.rb:61-72 | with no options the clauses are name, INCREMENT BY 1, NO MINVALUE, NO MAXVALUE, START WITH 1, CACHE 1, NO CYCLE |
| SequenceStatements.CreateWithoutOptions | lib/postgresql_adapter_extensions/sequence_methods.rb:50-72 | `create_sequence(name)` renders exactly `CREATE SEQUENCE <q> INCREMENT BY 1 NO MINVALUE NO MAXVALUE START WITH 1 CACHE 1 NO CYCLE` |
| SequenceStatements.AlterHead | lib/postgresql_adapter_extensions/sequence_methods.rb:119-120 | `IF EXISTS` is present iff `if_exists` is truthy, right before the name; `IF NOT EXISTS` never appears |
| SequenceStatements.AlterRules | lib/postgresql_adapter_extensions/sequence_methods.rb:122-131 | the same exactly-one and present-iff-truthy rules as create, with no defaults merged; OWNED BY NONE iff `owned_by` is falsy, else OWNED BY its text; no behaviour clause |
| SequenceStatements.AlterRestartRule | lib/postgresql_adapter_extensions/sequence_methods.rb:127-128 | no `restart` key: no restart clause; bare RESTART iff the key is present with value nil; RESTART WITH v iff the value is truthy (so `restart: false` gives neither) |
| SequenceStatements.AlterRestartPlacement | lib/postgresql_adapter_extensions/sequence_methods.rb:126-129 | at most one restart clause, and it falls after START WITH and before CACHE |
| SequenceStatements.AlterDefaultClauses | lib/postgresql_adapter_extensions/sequence_methods.rb:117-131 | with no options the clauses are name, NO MINVALUE, NO MAXVALUE, NO CYCLE, OWNED BY NONE |
| SequenceStatements.AlterWithoutOptions | lib/postgresql_adapter_extensions/sequence_methods.rb:117-131 | `alter_sequence(name)` renders exactly `ALTER SEQUENCE <q> NO MINVALUE NO MAXVALUE NO CYCLE OWNED BY NONE` |
| SequenceOptions.NameInjective | lib/postgresql_adapter_extensions/sequence_methods.rb:62-72 | every symbol key has exactly one model key: the twelve symbols the methods read (lines 62-72, 119-131, 172-174) are never `Other` |
| SequenceStatements.ClausesIgnoreOther | lib/postgresql_adapter_extensions/sequence_methods.rb:118-131 | a key none of the methods reads changes no clause of any statement |
| SequenceStatements.AlterIgnoresOtherKeys | lib/postgresql_adapter_extensions/sequence_methods.rb:117-131 | adding an unread key to the options of `alter_sequence` leaves its text unchanged |
| SequenceStatements.AlterRestartWithKey | lib/postgresql_adapter_extensions/sequence_methods.rb:97-99 | the documented `alter_sequence(name, restart_with: v)` renders the same text as `alter_sequence(name)`, with no RESTART |
| SequenceStatements.DropRules | lib/postgresql_adapter_extensions/sequence_methods.rb:166-173 | `IF EXISTS` iff the caller passed a truthy `if_exists`, right before the name; only IF EXISTS, the name and a behaviour keyword ever appear |
| SequenceStatements.DropBehaviorRule | lib/postgresql_adapter_extensions/sequence_methods.rb:168-174 | CASCADE / RESTRICT appears iff `drop_behavior` is exactly `:cascade` / `:restrict`; an omitted key means `:restrict`; an explicit nil or any other value gives no behaviour clause |
| SequenceStatements.DropBehaviorPart | lib/postgresql_adapter_extensions/sequence_methods.rb:174 | the behaviour slot holds `CASCADE`, `RESTRICT` or nothing, by the same filter |
| SequenceStatements.DropWithoutOptions | lib/postgresql_adapter_extensions/sequence_methods.rb:165-174 | `drop_sequence(name)` renders exactly `DROP SEQUENCE <q> RESTRICT` |
| SequenceStatements.DropReadsOnlyItsKeys | lib/postgresql_adapter_extensions/sequence_methods.rb:165-174 | two option hashes that agree on `if_exists` and `drop_behavior` (presence included) give the same DROP statement |
| SequenceStatements.DropIgnoresUnreadOptions | lib/postgresql_adapter_extensions/sequence_methods.rb:165-174 | `drop_sequence(name, options)` with neither `if_exists` nor `drop_behavior` ignores every other option and renders `DROP SEQUENCE <q> RESTRICT` |
| SequenceMethods.AppendIfNotExists | lib/postgresql_adapter_extensions/sequence_methods.rb:62 | the buffer gains exactly the IF NOT EXISTS slot of the create statement |
| SequenceMethods.AppendIfExists | lib/postgresql_adapter_extensions/sequence_methods.rb:119 | the buffer gains exactly the IF EXISTS slot of the alter or drop statement (also line 172) |
| SequenceMethods.AppendName | lib/postgresql_adapter_extensions/sequence_methods.rb:63 | the buffer gains exactly the name slot (also lines 120, 173) |
| SequenceMethods.AppendDataType | lib/postgresql_adapter_extensions/sequence_methods.rb:65 | the buffer gains exactly the AS slot (also line 122) |
| SequenceMethods.AppendIncrementBy | lib/postgresql_adapter_extensions/sequence_methods.rb:66 | the buffer gains exactly the INCREMENT BY slot (also line 123) |
| SequenceMethods.AppendMinValue | lib/postgresql_adapter_extensions/sequence_methods.rb:67 | the buffer gains exactly the MINVALUE / NO MINVALUE slot (also line 124) |
| SequenceMethods.AppendMaxValue | lib/postgresql_adapter_extensions/sequence_methods.rb:68 | the buffer gains exactly the MAXVALUE / NO MAXVALUE slot (also line 125) |
| SequenceMethods.AppendStart | lib/postgresql_adapter_extensions/sequence_methods.rb:69 | the buffer gains exactly the START WITH slot (also line 126) |
| SequenceMethods.AppendRestart | lib/postgresql_adapter_extensions/sequence_methods.rb:127-128 | the two restart lines together append exactly the restart slot of the alter statement |
| SequenceMethods.AppendCache | lib/postgresql_adapter_extensions/sequence_methods.rb:70 | the buffer gains exactly the CACHE slot (also line 129) |
| SequenceMethods.AppendCycle | lib/postgresql_adapter_extensions/sequence_methods.rb:71 | the buffer gains exactly the CYCLE / NO CYCLE slot (also line 130) |
| SequenceMethods.AppendOwnedBy | lib/postgresql_adapter_extensions/sequence_methods.rb:72 | the buffer gains exactly the ownership slot of the create statement |
| SequenceMethods.AppendOwnership | lib/postgresql_adapter_extensions/sequence_methods.rb:131 | the buffer gains exactly the ownership slot of the alter statement |
| SequenceMethods.AppendDropBehavior | lib/postgresql_adapter_extensions/sequence_methods.rb:174 | the buffer gains exactly the behaviour slot of the drop statement |
| SequenceMethods.CreateSql | lib/postgresql_adapter_extensions/sequence_methods.rb:51-72 | the buffer built line by line is exactly the create statement, so every `SequenceStatements` lemma about it holds of what is executed |
| SequenceMethods.AlterSql | lib/postgresql_adapter_extensions/sequence_methods.rb:118-131 | the buffer built line by line is exactly the alter statement |
| SequenceMethods.DropSql | lib/postgresql_adapter_extensions/sequence_methods.rb:166-174 | the buffer built line by line is exactly the drop statement |
| SequenceMethods.Adapter.ExecuteAndReload | lib/postgresql_adapter_extensions/sequence_methods.rb:74 | one `execute`, then one type-map reload unless `execute` raised; the result is `execute`'s answer |
| SequenceMethods.Adapter.CreateSequence | lib/postgresql_adapter_extensions/sequence_methods.rb:50-75 | the connection sees exactly the create statement once, then one reload unless it raised; returns `execute`'s answer |
| SequenceMethods.Adapter.AlterSequence | lib/postgresql_adapter_extensions/sequence_methods.rb:117-134 | the same for the alter statement |
| SequenceMethods.Adapter.DropSequence | lib/postgresql_adapter_extensions/sequence_methods.rb:165-177 | the same for the drop statement |
| CommandRecorder.InvertCreateSequence | lib/postgresql_adapter_extensions/command_recorder.rb:91-93 | the inverse of `create_sequence` is `drop_sequence` with the very same arguments |
| CommandRecorder.InvertAlterSequence | lib/postgresql_adapter_extensions/command_recorder.rb:104-106 | irreversible for every argument list, with message "Alter sequence is irreversible." |
| CommandRecorder.InvertDropSequence | lib/postgresql_adapter_extensions/command_recorder.rb:117-119 | irreversible for every argument list, with message "Drop sequence is irreversible." |
| CommandRecorder.InvertPolicy | lib/postgresql_adapter_extensions/command_recorder.rb:91-119 | inversion succeeds iff the verb is `create_sequence`; its inverse keeps the arguments; the failures carry their verb's message |
| Rollback.RollbackOfCreate | lib/postgresql_adapter_extensions/command_recorder.rb:91-93 | rolling back `create_sequence(name, options)` inverts to `drop_sequence` with the same arguments for every option hash; when the options carry neither `if_exists` nor `drop_behavior` that drop renders `DROP SEQUENCE <q> RESTRICT` whatever create options were given |
| CommandRecorder.InverseOfInverseFails | lib/postgresql_adapter_extensions/command_recorder.rb:91-93 | inverting the inverse of `create_sequence` fails with "Drop sequence is irreversible." |
| CommandRecorder.Recorder.constructor | spec/postgresql_adapter_extensions/command_recorder_spec.rb:89-90 | a new recorder has no commands |
| CommandRecorder.Recorder.CreateSequence | lib/postgresql_adapter_extensions/command_recorder.rb:40-42 | appends exactly one entry `[create_sequence, args, block]` with the arguments verbatim; earlier entries are unchanged |
| CommandRecorder.Recorder.AlterSequence | lib/postgresql_adapter_extensions/command_recorder.rb:58-60 | appends exactly one entry `[alter_sequence, args, block]`; earlier entries are unchanged |
| CommandRecorder.Recorder.DropSequence | lib/postgresql_adapter_extensions/command_recorder.rb:76-78 | appends exactly one entry `[drop_sequence, args, block]`; earlier entries are unchanged |
| CommandRecorder.CountVerb | spec/postgresql_adapter_extensions/command_recorder_spec.rb:86 | the count equals the number of log positions whose entry has the verb |
| CommandRecorder.CountAppend | spec/postgresql_adapter_extensions/command_recorder_spec.rb:86 | counting a verb's entries over two logs one after the other adds the two counts |
| CommandRecorder.NoDeduplication | spec/postgresql_adapter_extensions/command_recorder_spec.rb:83-87 | recording the same command twice adds two entries of its verb: nothing is deduplicated |
| CommandRecorder.RecordTwice | spec/postgresql_adapter_extensions/command_recorder_spec.rb:84-86 | two `create_sequence` calls on a fresh recorder leave a count of 2 |

## Left out

- `quote_table_name` is the adapter's function parameter `quote`. Nothing is assumed about how it quotes. A name is a string; a symbol name is taken as its string.
- `execute` is the adapter's function parameter `server`, which answers a statement given everything the connection has seen before. How PostgreSQL parses or runs the statement is not modelled.
- `reload_type_map` is modelled only as an event on the connection trace, not by what it reloads.
- When `execute` raises, the exception propagates to the caller. The model returns it as a `Raised` answer and records no reload.
- The buffer is threaded through the step methods as a string value, not as a mutable string object appended in place. The text it holds after each line is the same.
- `String#upcase` is modelled on ASCII letters only. The values it is applied to are `:cascade` and `:restrict`.
- Interpolation (`to_s`) is modelled for nil, booleans, integers, strings and symbols. Floats, big decimals and other objects are not.
- The host recorder's `record` while reverting, its replay of inverted commands, and the contents of blocks are not modelled. A block is only an identity.
- `CommandRecorder.Invert` is the dispatch the host performs to `invert_<verb>`. The host's version of it is not part of this model.
- The doc comment at `lib/postgresql_adapter_extensions/sequence_methods.rb:28` says `minvalue` defaults to 1. The code merges no `minvalue`, so an omitted `minvalue` gives `NO MINVALUE`. The model follows the code (`SequenceStatements.CreateFlagDefaults`).
- The doc comment at `lib/postgresql_adapter_extensions/sequence_methods.rb:145` says `drop_behavior` defaults to nil. The code merges `:restrict` (line 168), so an omitted behaviour renders `RESTRICT`. The model follows the code (`SequenceStatements.DropBehaviorRule`).
- The doc example at `lib/postgresql_adapter_extensions/sequence_methods.rb:99` passes `restart_with:`. The code reads only `restart`, so that key is ignored. The model follows the code (`SequenceStatements.AlterRestartWithKey`).
- Option keys are symbols. A string key such as `"restart"` is a distinct Ruby key that the methods never read; the model has no separate key for it.
- The gem's loader, version and configuration files and the test helper are not part of this model.
