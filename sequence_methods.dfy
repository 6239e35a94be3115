/**
 * `create_sequence`, `alter_sequence` and `drop_sequence` as the adapter runs
 * them: a string buffer that starts with the statement's keywords and has one
 * piece appended per line of the method, then handed to `execute`, after
 * which the type map is reloaded.
 *
 * Each line that appends to the buffer is a method of its own whose contract says which
 * slot of the statement it writes; the builders chain them in the source's
 * order and are proved against the statement functions of
 * `SequenceStatements`, so every lemma proved there holds of what is
 * executed.
 */
module SequenceMethods {
  import opened Ruby
  import Layout
  import Opt = SequenceOptions
  import opened SequenceStatements

  type Options = Opt.Options

  /** The buffer `sql` with the parts of slots `k ..` appended one slot after the other. */
  ghost function EmitFrom(sql: string, part: nat -> seq<Clause>, k: nat): string
    decreases Layout.SlotCount - k
  {
    if k >= Layout.SlotCount then sql else EmitFrom(Emit(sql, part(k)), part, k + 1)
  }

  /** Appending slot by slot gives the same text as emitting the assembled clause list. */
  lemma {:induction false} EmitFromAssembled(sql: string, part: nat -> seq<Clause>, k: nat)
    ensures EmitFrom(sql, part, k) == Emit(sql, Layout.Assemble(part, k))
    decreases Layout.SlotCount - k
  {
    if k < Layout.SlotCount {
      EmitSlot(sql, part, k);
      EmitFromAssembled(Emit(sql, part(k)), part, k + 1);
    }
  }

  /** A statement is its keywords with the part of every slot appended in slot order. */
  lemma SlotBySlot(verb: Verb, q: string, o: Options)
    ensures Statement(verb, q, o) == EmitFrom(Keywords(verb), Parts(verb, q, o), 0)
  {
    EmitFromAssembled(Keywords(verb), Parts(verb, q, o), 0);
  }

  /** A slot the statement leaves empty adds nothing to the buffer. */
  lemma Untouched(sql: string, verb: Verb, q: string, o: Options, k: nat)
    requires Part(verb, q, o, k) == []
    ensures Emit(sql, Part(verb, q, o, k)) == sql
  {
  }

  // ---------------------------------------------------------------- one method per appended line

  /** Appends ` IF NOT EXISTS` when `if_not_exists` is truthy. */
  method AppendIfNotExists(sql: string, ghost q: string, o: Options) returns (r: string)
    ensures r == Emit(sql, Part(Create, q, o, 0))
  {
    r := sql;
    if Truthy(Fetch(o, Opt.IfNotExists)) {
      r := r + " IF NOT EXISTS";
    }
    EmitOne(sql, IfNotExists);
  }

  /** Appends ` IF EXISTS` when `if_exists` is truthy. */
  method AppendIfExists(sql: string, ghost verb: Verb, ghost q: string, o: Options) returns (r: string)
    requires verb != Create
    ensures r == Emit(sql, Part(verb, q, o, 0))
  {
    r := sql;
    if Truthy(Fetch(o, Opt.IfExists)) {
      r := r + " IF EXISTS";
    }
    EmitOne(sql, IfExists);
  }

  /** Appends a space and the quoted sequence name. */
  method AppendName(sql: string, ghost verb: Verb, q: string, ghost o: Options) returns (r: string)
    ensures r == Emit(sql, Part(verb, q, o, 1))
  {
    r := sql + (" " + q);
    EmitOne(sql, Name(q));
  }

  /** Appends ` AS` and the data type when `data_type` is truthy. */
  method AppendDataType(sql: string, ghost verb: Verb, ghost q: string, o: Options) returns (r: string)
    requires verb != Drop
    ensures r == Emit(sql, Part(verb, q, o, 2))
  {
    r := sql;
    if Truthy(Fetch(o, Opt.DataType)) {
      r := r + (" AS " + ToS(Fetch(o, Opt.DataType)));
    }
    EmitOne(sql, As(ToS(Fetch(o, Opt.DataType))));
  }

  /** Appends ` INCREMENT BY` and the step when `increment_by` is truthy. */
  method AppendIncrementBy(sql: string, ghost verb: Verb, ghost q: string, o: Options) returns (r: string)
    requires verb != Drop
    ensures r == Emit(sql, Part(verb, q, o, 3))
  {
    r := sql;
    if Truthy(Fetch(o, Opt.IncrementBy)) {
      r := r + (" INCREMENT BY " + ToS(Fetch(o, Opt.IncrementBy)));
    }
    EmitOne(sql, IncrementBy(ToS(Fetch(o, Opt.IncrementBy))));
  }

  /** Appends ` MINVALUE` and the bound when `minvalue` is truthy, else ` NO MINVALUE`. */
  method AppendMinValue(sql: string, ghost verb: Verb, ghost q: string, o: Options) returns (r: string)
    requires verb != Drop
    ensures r == Emit(sql, Part(verb, q, o, 4))
  {
    r := sql + (if Truthy(Fetch(o, Opt.MinValue)) then " MINVALUE " + ToS(Fetch(o, Opt.MinValue)) else " NO MINVALUE");
    EmitOne(sql, if Truthy(Fetch(o, Opt.MinValue)) then MinValue(ToS(Fetch(o, Opt.MinValue))) else NoMinValue);
  }

  /** Appends ` MAXVALUE` and the bound when `maxvalue` is truthy, else ` NO MAXVALUE`. */
  method AppendMaxValue(sql: string, ghost verb: Verb, ghost q: string, o: Options) returns (r: string)
    requires verb != Drop
    ensures r == Emit(sql, Part(verb, q, o, 5))
  {
    r := sql + (if Truthy(Fetch(o, Opt.MaxValue)) then " MAXVALUE " + ToS(Fetch(o, Opt.MaxValue)) else " NO MAXVALUE");
    EmitOne(sql, if Truthy(Fetch(o, Opt.MaxValue)) then MaxValue(ToS(Fetch(o, Opt.MaxValue))) else NoMaxValue);
  }

  /** Appends ` START WITH` and the first value when `start` is truthy. */
  method AppendStart(sql: string, ghost verb: Verb, ghost q: string, o: Options) returns (r: string)
    requires verb != Drop
    ensures r == Emit(sql, Part(verb, q, o, 6))
  {
    r := sql;
    if Truthy(Fetch(o, Opt.Start)) {
      r := r + (" START WITH " + ToS(Fetch(o, Opt.Start)));
    }
    EmitOne(sql, StartWith(ToS(Fetch(o, Opt.Start))));
  }

  /**
   * Appends a bare ` RESTART` when `restart` is present with value nil, then
   * ` RESTART WITH` and the value when `restart` is truthy.
   */
  method AppendRestart(sql: string, ghost q: string, o: Options) returns (r: string)
    ensures r == Emit(sql, Part(Alter, q, o, 7))
  {
    r := sql;
    if Fetch(o, Opt.Restart).Nil? && Opt.Restart in o {
      r := r + " RESTART";
    }
    ghost var mid := r;
    if Truthy(Fetch(o, Opt.Restart)) {
      r := r + (" RESTART WITH " + ToS(Fetch(o, Opt.Restart)));
    }
    ghost var bare := When(Fetch(o, Opt.Restart).Nil? && Opt.Restart in o, Restart);
    ghost var with := When(Truthy(Fetch(o, Opt.Restart)), RestartWith(ToS(Fetch(o, Opt.Restart))));
    EmitOne(sql, Restart);
    EmitOne(mid, RestartWith(ToS(Fetch(o, Opt.Restart))));
    EmitAppend(sql, bare, with);
  }

  /** Appends ` CACHE` and the count when `cache` is truthy. */
  method AppendCache(sql: string, ghost verb: Verb, ghost q: string, o: Options) returns (r: string)
    requires verb != Drop
    ensures r == Emit(sql, Part(verb, q, o, 8))
  {
    r := sql;
    if Truthy(Fetch(o, Opt.Cache)) {
      r := r + (" CACHE " + ToS(Fetch(o, Opt.Cache)));
    }
    EmitOne(sql, Cache(ToS(Fetch(o, Opt.Cache))));
  }

  /** Appends ` CYCLE` when `cycle` is truthy, else ` NO CYCLE`. */
  method AppendCycle(sql: string, ghost verb: Verb, ghost q: string, o: Options) returns (r: string)
    requires verb != Drop
    ensures r == Emit(sql, Part(verb, q, o, 9))
  {
    r := sql + (if Truthy(Fetch(o, Opt.Cycle)) then " CYCLE" else " NO CYCLE");
    EmitOne(sql, if Truthy(Fetch(o, Opt.Cycle)) then Cycle else NoCycle);
  }

  /** For `create_sequence`: appends ` OWNED BY` and the column when `owned_by` is truthy. */
  method AppendOwnedBy(sql: string, ghost q: string, o: Options) returns (r: string)
    ensures r == Emit(sql, Part(Create, q, o, 10))
  {
    r := sql;
    if Truthy(Fetch(o, Opt.OwnedBy)) {
      r := r + (" OWNED BY " + ToS(Fetch(o, Opt.OwnedBy)));
    }
    EmitOne(sql, OwnedBy(ToS(Fetch(o, Opt.OwnedBy))));
  }

  /** For `alter_sequence`: appends ` OWNED BY` and the column when `owned_by` is truthy, else ` OWNED BY NONE`. */
  method AppendOwnership(sql: string, ghost q: string, o: Options) returns (r: string)
    ensures r == Emit(sql, Part(Alter, q, o, 10))
  {
    r := sql + (if Truthy(Fetch(o, Opt.OwnedBy)) then " OWNED BY " + ToS(Fetch(o, Opt.OwnedBy)) else " OWNED BY NONE");
    EmitOne(sql, if Truthy(Fetch(o, Opt.OwnedBy)) then OwnedBy(ToS(Fetch(o, Opt.OwnedBy))) else OwnedByNone);
  }

  /** Appends the upcased behaviour when `drop_behavior` is `:cascade` or `:restrict`. */
  method AppendDropBehavior(sql: string, ghost q: string, o: Options) returns (r: string)
    ensures r == Emit(sql, Part(Drop, q, o, 11))
  {
    var behavior := Fetch(o, Opt.DropBehavior);
    assert Part(Drop, q, o, 11) == BehaviorPart(behavior);
    r := sql;
    if KnownBehavior(behavior) {
      var keyword := Upcase(ToS(behavior));
      r := r + (" " + keyword);
      assert BehaviorPart(behavior) == [Behavior(keyword)];
      EmitOne(sql, Behavior(keyword));
    } else {
      assert BehaviorPart(behavior) == [];
      EmitOne(sql, Behavior(""));
    }
  }

  // ---------------------------------------------------------------- the three builders

  /**
   * The body of `create_sequence` up to `execute`: the defaults merged under
   * the caller's options, then the lines for `IF NOT EXISTS`, the quoted
   * name, `AS`, `INCREMENT BY`, `[NO] MINVALUE`, `[NO] MAXVALUE`,
   * `START WITH`, `CACHE`, `[NO] CYCLE` and `OWNED BY`, in that order.
   */
  method CreateSql(quote: string -> string, name: string, options: Options) returns (sql: string)
    ensures sql == CreateStatement(quote, name, options)
  {
    var o := ReverseMerge(options, CreateDefaults());
    var q := quote(name);
    sql := "CREATE SEQUENCE";
    SlotBySlot(Create, q, o);
    sql := AppendIfNotExists(sql, q, o);
    sql := AppendName(sql, Create, q, o);
    sql := AppendDataType(sql, Create, q, o);
    sql := AppendIncrementBy(sql, Create, q, o);
    sql := AppendMinValue(sql, Create, q, o);
    sql := AppendMaxValue(sql, Create, q, o);
    sql := AppendStart(sql, Create, q, o);
    Untouched(sql, Create, q, o, 7);
    sql := AppendCache(sql, Create, q, o);
    sql := AppendCycle(sql, Create, q, o);
    sql := AppendOwnedBy(sql, q, o);
    Untouched(sql, Create, q, o, 11);
  }

  /**
   * The body of `alter_sequence` up to `execute`: no defaults are merged;
   * the lines for `IF EXISTS`, the quoted name, the clauses `create_sequence`
   * also writes, a bare `RESTART` or `RESTART WITH`, and `OWNED BY` (or
   * `OWNED BY NONE`).
   */
  method AlterSql(quote: string -> string, name: string, options: Options) returns (sql: string)
    ensures sql == AlterStatement(quote, name, options)
  {
    var o := options;
    var q := quote(name);
    sql := "ALTER SEQUENCE";
    SlotBySlot(Alter, q, o);
    sql := AppendIfExists(sql, Alter, q, o);
    sql := AppendName(sql, Alter, q, o);
    sql := AppendDataType(sql, Alter, q, o);
    sql := AppendIncrementBy(sql, Alter, q, o);
    sql := AppendMinValue(sql, Alter, q, o);
    sql := AppendMaxValue(sql, Alter, q, o);
    sql := AppendStart(sql, Alter, q, o);
    sql := AppendRestart(sql, q, o);
    sql := AppendCache(sql, Alter, q, o);
    sql := AppendCycle(sql, Alter, q, o);
    sql := AppendOwnership(sql, q, o);
    Untouched(sql, Alter, q, o, 11);
  }

  /**
   * The body of `drop_sequence` up to `execute`: its defaults merged under
   * the caller's options, then the lines for `IF EXISTS`, the quoted name
   * and the upper-cased behaviour.
   */
  method DropSql(quote: string -> string, name: string, options: Options) returns (sql: string)
    ensures sql == DropStatement(quote, name, options)
  {
    var o := ReverseMerge(options, DropDefaults());
    var q := quote(name);
    sql := "DROP SEQUENCE";
    SlotBySlot(Drop, q, o);
    sql := AppendIfExists(sql, Drop, q, o);
    sql := AppendName(sql, Drop, q, o);
    DropLeavesOut(sql, q, o);
    sql := AppendDropBehavior(sql, q, o);
  }

  /** `DROP SEQUENCE` writes nothing in slots 2 to 10. */
  lemma DropLeavesOut(sql: string, q: string, o: Options)
    ensures forall k | 2 <= k <= 10 :: Emit(sql, Part(Drop, q, o, k)) == sql
  {
  }

  /** What the adapter's connection sees: statements handed to `execute`, and type-map reloads. */
  datatype Event = Executed(sql: string) | TypeMapReloaded

  /** What `execute` gives back: the command status, or the error it raised. */
  datatype Response = Completed(status: string) | Raised(message: string)

  /**
   * The PostgreSQL adapter the sequence methods are mixed into. Quoting and
   * the database are parameters: `quote` stands for `quote_table_name`, and
   * `server` answers a statement given everything the connection has seen
   * before it.
   */
  class Adapter {
    const quote: string -> string
    const server: (seq<Event>, string) -> Response
    var events: seq<Event>

    constructor (quote: string -> string, server: (seq<Event>, string) -> Response)
      ensures this.quote == quote && this.server == server
      ensures events == []
    {
      this.quote := quote;
      this.server := server;
      events := [];
    }

    /** `execute(sql)`: the statement goes to the connection and its answer comes back. */
    method Execute(sql: string) returns (r: Response)
      modifies this
      ensures r == server(old(events), sql)
      ensures events == old(events) + [Executed(sql)]
    {
      r := server(events, sql);
      events := events + [Executed(sql)];
    }

    /** `reload_type_map`. */
    method ReloadTypeMap()
      modifies this
      ensures events == old(events) + [TypeMapReloaded]
    {
      events := events + [TypeMapReloaded];
    }

    /**
     * Executes the statement, then reloads the type map; the answer of
     * `execute` is the result, and nothing is reloaded when `execute` raised.
     */
    method ExecuteAndReload(sql: string) returns (r: Response)
      modifies this
      ensures r == server(old(events), sql)
      ensures events == old(events) + [Executed(sql)] + (if r.Raised? then [] else [TypeMapReloaded])
    {
      r := Execute(sql);
      if !r.Raised? {
        ReloadTypeMap();
      }
    }

    /** `create_sequence(name, options)`: executes exactly the `CREATE SEQUENCE` statement. */
    method CreateSequence(name: string, options: Options) returns (r: Response)
      modifies this
      ensures var stmt := CreateStatement(quote, name, options);
        && r == server(old(events), stmt)
        && events == old(events) + [Executed(stmt)] + (if r.Raised? then [] else [TypeMapReloaded])
    {
      var sql := CreateSql(quote, name, options);
      r := ExecuteAndReload(sql);
    }

    /** `alter_sequence(name, options)`: executes exactly the `ALTER SEQUENCE` statement. */
    method AlterSequence(name: string, options: Options) returns (r: Response)
      modifies this
      ensures var stmt := AlterStatement(quote, name, options);
        && r == server(old(events), stmt)
        && events == old(events) + [Executed(stmt)] + (if r.Raised? then [] else [TypeMapReloaded])
    {
      var sql := AlterSql(quote, name, options);
      r := ExecuteAndReload(sql);
    }

    /** `drop_sequence(name, options)`: executes exactly the `DROP SEQUENCE` statement. */
    method DropSequence(name: string, options: Options) returns (r: Response)
      modifies this
      ensures var stmt := DropStatement(quote, name, options);
        && r == server(old(events), stmt)
        && events == old(events) + [Executed(stmt)] + (if r.Raised? then [] else [TypeMapReloaded])
    {
      var sql := DropSql(quote, name, options);
      r := ExecuteAndReload(sql);
    }
  }
}
