/**
 * The SQL text that `create_sequence`, `alter_sequence` and `drop_sequence`
 * build. A statement is its leading keywords followed by a list of clauses;
 * every clause belongs to one slot of the PostgreSQL grammar, and the slots
 * fix the order in which clauses may appear.
 */
module SequenceStatements {
  import opened Ruby
  import Layout
  import Opt = SequenceOptions

  type Options = Opt.Options

  /** One clause of a sequence statement, holding its already interpolated value. */
  datatype Clause =
    | IfNotExists
    | IfExists
    | Name(quoted: string)
    | As(dataType: string)
    | IncrementBy(step: string)
    | MinValue(low: string)
    | NoMinValue
    | MaxValue(high: string)
    | NoMaxValue
    | StartWith(first: string)
    | Restart
    | RestartWith(next: string)
    | Cache(size: string)
    | Cycle
    | NoCycle
    | OwnedBy(column: string)
    | OwnedByNone
    | Behavior(keyword: string)

  /** The text appended to the statement for a clause (every clause starts with a space). */
  function Text(c: Clause): string {
    match c
    case IfNotExists => " IF NOT EXISTS"
    case IfExists => " IF EXISTS"
    case Name(q) => " " + q
    case As(t) => " AS " + t
    case IncrementBy(v) => " INCREMENT BY " + v
    case MinValue(v) => " MINVALUE " + v
    case NoMinValue => " NO MINVALUE"
    case MaxValue(v) => " MAXVALUE " + v
    case NoMaxValue => " NO MAXVALUE"
    case StartWith(v) => " START WITH " + v
    case Restart => " RESTART"
    case RestartWith(v) => " RESTART WITH " + v
    case Cache(v) => " CACHE " + v
    case Cycle => " CYCLE"
    case NoCycle => " NO CYCLE"
    case OwnedBy(col) => " OWNED BY " + col
    case OwnedByNone => " OWNED BY NONE"
    case Behavior(w) => " " + w
  }

  /**
   * The text of a statement: each clause's text appended in turn to the
   * buffer `sql`, as `sql << ...` does.
   */
  function Emit(sql: string, cs: seq<Clause>): string
    decreases |cs|
  {
    if cs == [] then sql else Emit(sql + Text(cs[0]), cs[1..])
  }

  /** Emitting two lists one after the other emits their concatenation. */
  lemma {:induction false} EmitAppend(sql: string, a: seq<Clause>, b: seq<Clause>)
    ensures Emit(sql, a + b) == Emit(Emit(sql, a), b)
    decreases |a|
  {
    if a == [] {
      assert a + b == b;
    } else {
      assert (a + b)[0] == a[0];
      assert (a + b)[1..] == a[1..] + b;
      EmitAppend(sql + Text(a[0]), a[1..], b);
    }
  }

  lemma EmitOne(sql: string, c: Clause)
    ensures Emit(sql, []) == sql
    ensures Emit(sql, [c]) == sql + Text(c)
  {
    assert [c][1..] == [];
  }

  /** Emitting one more clause appends its text to the buffer. */
  lemma EmitSnoc(sql: string, cs: seq<Clause>, c: Clause)
    ensures Emit(sql, cs + [c]) == Emit(sql, cs) + Text(c)
  {
    EmitAppend(sql, cs, [c]);
    EmitOne(Emit(sql, cs), c);
  }

  /** Appending clauses never changes what the buffer already holds. */
  lemma {:induction false} EmitPrefix(sql: string, cs: seq<Clause>)
    ensures |Emit(sql, cs)| >= |sql| && Emit(sql, cs)[..|sql|] == sql
    decreases |cs|
  {
    if cs != [] {
      var next := sql + Text(cs[0]);
      EmitPrefix(next, cs[1..]);
      var r := Emit(sql, cs);
      assert r == Emit(next, cs[1..]);
      assert r[..|sql|] == r[..|next|][..|sql|];
    }
  }

  /** The grammar slot of a clause: the clauses of a statement appear in increasing slot order. */
  function Slot(c: Clause): nat {
    match c
    case IfNotExists | IfExists => 0
    case Name(_) => 1
    case As(_) => 2
    case IncrementBy(_) => 3
    case MinValue(_) | NoMinValue => 4
    case MaxValue(_) | NoMaxValue => 5
    case StartWith(_) => 6
    case Restart | RestartWith(_) => 7
    case Cache(_) => 8
    case Cycle | NoCycle => 9
    case OwnedBy(_) | OwnedByNone => 10
    case Behavior(_) => 11
  }

  /** `[c]` when the guard holds, nothing otherwise: a clause appended under an `if`. */
  function When(guard: bool, c: Clause): (part: seq<Clause>)
    ensures part == [] || part == [c]
  {
    if guard then [c] else []
  }

  /** The three statements the sequence methods build. */
  datatype Verb = Create | Alter | Drop

  /** The keywords a statement starts with. */
  function Keywords(verb: Verb): string {
    match verb
    case Create => "CREATE SEQUENCE"
    case Alter => "ALTER SEQUENCE"
    case Drop => "DROP SEQUENCE"
  }

  /**
   * What the statement of `verb` appends in grammar slot `slot`, for the
   * quoted name `q` and the options `o` (after any merging of defaults).
   */
  function Part(verb: Verb, q: string, o: Options, slot: nat): (part: seq<Clause>)
    ensures Layout.InSlot(Slot, part, slot)
  {
    match verb
    case Create => CreatePart(q, o, slot)
    case Alter => AlterPart(q, o, slot)
    case Drop => DropPart(q, o, slot)
  }

  /** The parts of a statement, slot by slot. */
  function Parts(verb: Verb, q: string, o: Options): nat -> seq<Clause> {
    (k: nat) => Part(verb, q, o, k)
  }

  lemma PartsSlotted(verb: Verb, q: string, o: Options)
    ensures Layout.Slotted(Slot, Parts(verb, q, o))
  {
  }

  /** The clauses a statement has after its keywords. */
  function Clauses(verb: Verb, q: string, o: Options): seq<Clause> {
    Layout.Assemble(Parts(verb, q, o), 0)
  }

  /** The statement text: keywords, then the clauses. */
  function Statement(verb: Verb, q: string, o: Options): string {
    Emit(Keywords(verb), Clauses(verb, q, o))
  }

  /** Every statement begins with its keywords, whatever the options. */
  lemma StatementStartsWithKeywords(verb: Verb, q: string, o: Options)
    ensures var text := Statement(verb, q, o);
      |text| >= |Keywords(verb)| && text[..|Keywords(verb)|] == Keywords(verb)
  {
    EmitPrefix(Keywords(verb), Clauses(verb, q, o));
  }

  /** Every statement lists its clauses in grammar order, at most one per slot. */
  lemma ClausesOrdered(verb: Verb, q: string, o: Options)
    ensures Layout.Ordered(Slot, Clauses(verb, q, o))
  {
    PartsSlotted(verb, q, o);
    Layout.AssembleOrdered(Slot, Parts(verb, q, o), 0);
  }

  /** A clause is in a statement exactly when the part of its own slot holds it. */
  lemma Member(verb: Verb, q: string, o: Options, c: Clause)
    ensures c in Clauses(verb, q, o) <==> Slot(c) < Layout.SlotCount && c in Part(verb, q, o, Slot(c))
  {
    PartsSlotted(verb, q, o);
    Layout.AssembleMember(Slot, Parts(verb, q, o), 0, c);
  }

  /** `cs` holds exactly the clauses the parts of `verb`'s statement give, each in its own slot. */
  ghost predicate Listed(cs: seq<Clause>, verb: Verb, q: string, o: Options) {
    forall c {:trigger c in cs} :: c in cs <==> Slot(c) < Layout.SlotCount && c in Part(verb, q, o, Slot(c))
  }

  lemma ClausesListed(verb: Verb, q: string, o: Options)
    ensures Listed(Clauses(verb, q, o), verb, q, o)
  {
    forall c ensures c in Clauses(verb, q, o) <==> Slot(c) < Layout.SlotCount && c in Part(verb, q, o, Slot(c)) {
      Member(verb, q, o, c);
    }
  }

  /** Emitting an assembled list emits the part of its first slot, then the rest. */
  lemma EmitSlot(sql: string, part: nat -> seq<Clause>, k: nat)
    requires k < Layout.SlotCount
    ensures Emit(sql, Layout.Assemble(part, k)) == Emit(Emit(sql, part(k)), Layout.Assemble(part, k + 1))
  {
    EmitAppend(sql, part(k), Layout.Assemble(part, k + 1));
  }

  // ---------------------------------------------------------------- shared slots

  /**
   * The slots `create_sequence` and `alter_sequence` fill the same way:
   * `AS`, `INCREMENT BY`, `[NO] MINVALUE`, `[NO] MAXVALUE`, `START WITH`,
   * `CACHE` and `[NO] CYCLE`.
   */
  function CommonPart(o: Options, slot: nat): (part: seq<Clause>)
    ensures Layout.InSlot(Slot, part, slot)
  {
    match slot
    case 2 => When(Truthy(Fetch(o, Opt.DataType)), As(ToS(Fetch(o, Opt.DataType))))
    case 3 => When(Truthy(Fetch(o, Opt.IncrementBy)), IncrementBy(ToS(Fetch(o, Opt.IncrementBy))))
    case 4 => [if Truthy(Fetch(o, Opt.MinValue)) then MinValue(ToS(Fetch(o, Opt.MinValue))) else NoMinValue]
    case 5 => [if Truthy(Fetch(o, Opt.MaxValue)) then MaxValue(ToS(Fetch(o, Opt.MaxValue))) else NoMaxValue]
    case 6 => When(Truthy(Fetch(o, Opt.Start)), StartWith(ToS(Fetch(o, Opt.Start))))
    case 8 => When(Truthy(Fetch(o, Opt.Cache)), Cache(ToS(Fetch(o, Opt.Cache))))
    case 9 => [if Truthy(Fetch(o, Opt.Cycle)) then Cycle else NoCycle]
    case _ => []
  }

  predicate IsCommonSlot(slot: nat) {
    2 <= slot <= 9 && slot != 7
  }

  /**
   * Whatever the options, exactly one of `MINVALUE v` / `NO MINVALUE`, of
   * `MAXVALUE v` / `NO MAXVALUE` and of `CYCLE` / `NO CYCLE` is present: the
   * negative form for a falsy value, the option's text for a truthy one.
   */
  ghost predicate NegatableRules(cs: seq<Clause>, o: Options) {
    && (NoMinValue in cs <==> !Truthy(Fetch(o, Opt.MinValue)))
    && (forall v :: MinValue(v) in cs <==> Truthy(Fetch(o, Opt.MinValue)) && v == ToS(Fetch(o, Opt.MinValue)))
    && (NoMaxValue in cs <==> !Truthy(Fetch(o, Opt.MaxValue)))
    && (forall v :: MaxValue(v) in cs <==> Truthy(Fetch(o, Opt.MaxValue)) && v == ToS(Fetch(o, Opt.MaxValue)))
    && (Cycle in cs <==> Truthy(Fetch(o, Opt.Cycle)))
    && (NoCycle in cs <==> !Truthy(Fetch(o, Opt.Cycle)))
  }

  /**
   * `AS`, `INCREMENT BY`, `START WITH` and `CACHE` are each present exactly
   * when their option is truthy, carrying that option's text.
   */
  ghost predicate OptionalRules(cs: seq<Clause>, o: Options) {
    && (forall t :: As(t) in cs <==> Truthy(Fetch(o, Opt.DataType)) && t == ToS(Fetch(o, Opt.DataType)))
    && (forall v :: IncrementBy(v) in cs <==> Truthy(Fetch(o, Opt.IncrementBy)) && v == ToS(Fetch(o, Opt.IncrementBy)))
    && (forall v :: StartWith(v) in cs <==> Truthy(Fetch(o, Opt.Start)) && v == ToS(Fetch(o, Opt.Start)))
    && (forall v :: Cache(v) in cs <==> Truthy(Fetch(o, Opt.Cache)) && v == ToS(Fetch(o, Opt.Cache)))
  }

  /** The rules of the slots `create_sequence` and `alter_sequence` share. */
  ghost predicate CommonRules(cs: seq<Clause>, o: Options) {
    NegatableRules(cs, o) && OptionalRules(cs, o)
  }

  /** For every shared slot, the clause list holds exactly what `CommonPart` gives. */
  ghost predicate AgreesOnCommonSlots(cs: seq<Clause>, o: Options) {
    forall c {:trigger c in cs} :: IsCommonSlot(Slot(c)) ==> (c in cs <==> c in CommonPart(o, Slot(c)))
  }

  /** Create and alter agree with `CommonPart` on every shared slot. */
  lemma CommonPartUsed(verb: Verb, q: string, o: Options, slot: nat)
    requires verb != Drop && IsCommonSlot(slot)
    ensures Part(verb, q, o, slot) == CommonPart(o, slot)
  {
  }

  lemma NegatableRulesOf(cs: seq<Clause>, o: Options)
    requires AgreesOnCommonSlots(cs, o)
    ensures NegatableRules(cs, o)
  {
    assert NoMinValue in cs <==> NoMinValue in CommonPart(o, 4);
    assert NoMaxValue in cs <==> NoMaxValue in CommonPart(o, 5);
    assert Cycle in cs <==> Cycle in CommonPart(o, 9);
    assert NoCycle in cs <==> NoCycle in CommonPart(o, 9);
    forall v ensures MinValue(v) in cs <==> Truthy(Fetch(o, Opt.MinValue)) && v == ToS(Fetch(o, Opt.MinValue)) {
      assert MinValue(v) in cs <==> MinValue(v) in CommonPart(o, 4);
    }
    forall v ensures MaxValue(v) in cs <==> Truthy(Fetch(o, Opt.MaxValue)) && v == ToS(Fetch(o, Opt.MaxValue)) {
      assert MaxValue(v) in cs <==> MaxValue(v) in CommonPart(o, 5);
    }
  }

  lemma OptionalRulesOf(cs: seq<Clause>, o: Options)
    requires AgreesOnCommonSlots(cs, o)
    ensures OptionalRules(cs, o)
  {
    forall t ensures As(t) in cs <==> Truthy(Fetch(o, Opt.DataType)) && t == ToS(Fetch(o, Opt.DataType)) {
      assert As(t) in cs <==> As(t) in CommonPart(o, 2);
    }
    forall v ensures IncrementBy(v) in cs <==> Truthy(Fetch(o, Opt.IncrementBy)) && v == ToS(Fetch(o, Opt.IncrementBy)) {
      assert IncrementBy(v) in cs <==> IncrementBy(v) in CommonPart(o, 3);
    }
    forall v ensures StartWith(v) in cs <==> Truthy(Fetch(o, Opt.Start)) && v == ToS(Fetch(o, Opt.Start)) {
      assert StartWith(v) in cs <==> StartWith(v) in CommonPart(o, 6);
    }
    forall v ensures Cache(v) in cs <==> Truthy(Fetch(o, Opt.Cache)) && v == ToS(Fetch(o, Opt.Cache)) {
      assert Cache(v) in cs <==> Cache(v) in CommonPart(o, 8);
    }
  }

  /** Create and alter fill the shared slots through `CommonPart`, so both obey `CommonRules`. */
  lemma CommonRulesOf(cs: seq<Clause>, verb: Verb, q: string, o: Options)
    requires Listed(cs, verb, q, o) && verb != Drop
    ensures CommonRules(cs, o)
  {
    forall c | IsCommonSlot(Slot(c)) ensures c in cs <==> c in CommonPart(o, Slot(c)) {
      CommonPartUsed(verb, q, o, Slot(c));
    }
    NegatableRulesOf(cs, o);
    OptionalRulesOf(cs, o);
  }

  /** A statement has no clause of slot `slot` when the part of that slot is empty. */
  lemma EmptySlotOf(cs: seq<Clause>, verb: Verb, q: string, o: Options, slot: nat)
    requires Listed(cs, verb, q, o) && Part(verb, q, o, slot) == []
    ensures forall c :: c in cs ==> Slot(c) != slot
  {
  }

  /**
   * In an ordered clause list holding the name `Name(q)`, whose only slot-0
   * candidate is `head`: when `head` is present it comes first and the name
   * second; otherwise the name comes first.
   */
  lemma LeadingClauses(cs: seq<Clause>, head: Clause, q: string)
    requires Layout.Ordered(Slot, cs) && Slot(head) == 0 && Name(q) in cs
    requires forall c :: c in cs && Slot(c) == 0 ==> c == head
    ensures if head in cs then |cs| >= 2 && cs[0] == head && cs[1] == Name(q) else |cs| >= 1 && cs[0] == Name(q)
  {
    var n :| 0 <= n < |cs| && cs[n] == Name(q);
    Layout.OrderedSlotBound(Slot, cs, n);
    forall i | 0 <= i < n ensures cs[i] == head {
      assert Slot(cs[i]) < Slot(cs[n]);
    }
    if head in cs {
      var m :| 0 <= m < |cs| && cs[m] == head;
      Layout.OrderedPlacement(Slot, cs, m, n);
    }
  }

  /**
   * Every statement starts with its optional existence test `head` (when
   * the part of slot 0 holds it), then the quoted name.
   */
  lemma HeadOf(cs: seq<Clause>, verb: Verb, q: string, o: Options, head: Clause)
    requires Listed(cs, verb, q, o) && Layout.Ordered(Slot, cs) && Slot(head) == 0
    requires forall c :: c in Part(verb, q, o, 0) ==> c == head
    requires Part(verb, q, o, 1) == [Name(q)]
    ensures head in cs <==> head in Part(verb, q, o, 0)
    ensures if head in cs then |cs| >= 2 && cs[0] == head && cs[1] == Name(q) else |cs| >= 1 && cs[0] == Name(q)
  {
    assert Name(q) in cs;
    LeadingClauses(cs, head, q);
  }

  // ---------------------------------------------------------------- CREATE

  /** The defaults `create_sequence` merges under the caller's options (nothing for the bounds). */
  function CreateDefaults(): Options {
    map[Opt.Start := Int(1), Opt.IncrementBy := Int(1), Opt.Cache := Int(1), Opt.Cycle := False,
        Opt.DataType := Nil, Opt.OwnedBy := Nil, Opt.IfNotExists := False]
  }

  /** What `create_sequence` appends in grammar slot `slot` (options already merged). */
  function CreatePart(q: string, o: Options, slot: nat): (part: seq<Clause>)
    ensures Layout.InSlot(Slot, part, slot)
  {
    match slot
    case 0 => When(Truthy(Fetch(o, Opt.IfNotExists)), IfNotExists)
    case 1 => [Name(q)]
    case 7 => []
    case 10 => When(Truthy(Fetch(o, Opt.OwnedBy)), OwnedBy(ToS(Fetch(o, Opt.OwnedBy))))
    case _ => CommonPart(o, slot)
  }

  /** The statement `create_sequence(name, options)` executes. */
  function CreateStatement(quote: string -> string, name: string, options: Options): string {
    Statement(Create, quote(name), ReverseMerge(options, CreateDefaults()))
  }

  /**
   * `IF NOT EXISTS` is present iff `if_not_exists` is truthy, and then it
   * comes right before the quoted name; otherwise the name comes first.
   */
  lemma CreateHead(q: string, o: Options)
    ensures var cs := Clauses(Create, q, o);
      && (IfNotExists in cs <==> Truthy(Fetch(o, Opt.IfNotExists)))
      && (if Truthy(Fetch(o, Opt.IfNotExists))
          then |cs| >= 2 && cs[0] == IfNotExists && cs[1] == Name(q)
          else |cs| >= 1 && cs[0] == Name(q))
  {
    ClausesListed(Create, q, o);
    ClausesOrdered(Create, q, o);
    HeadOf(Clauses(Create, q, o), Create, q, o, IfNotExists);
  }

  /**
   * The remaining clause rules of `create_sequence` (options already merged):
   * the shared rules; `OWNED BY c` iff `owned_by` is truthy, and never
   * `OWNED BY NONE`; no `IF EXISTS`, restart or drop-behaviour clause.
   */
  lemma CreateRules(q: string, o: Options)
    ensures var cs := Clauses(Create, q, o);
      && CommonRules(cs, o)
      && (forall col :: OwnedBy(col) in cs <==> Truthy(Fetch(o, Opt.OwnedBy)) && col == ToS(Fetch(o, Opt.OwnedBy)))
      && OwnedByNone !in cs && IfExists !in cs
      && (forall c :: c in cs ==> Slot(c) != 7 && Slot(c) != 11)
  {
    ClausesListed(Create, q, o);
    CommonRulesOf(Clauses(Create, q, o), Create, q, o);
    CreateOwnershipOf(Clauses(Create, q, o), q, o);
  }

  lemma CreateOwnershipOf(cs: seq<Clause>, q: string, o: Options)
    requires Listed(cs, Create, q, o)
    ensures && (forall col :: OwnedBy(col) in cs <==> Truthy(Fetch(o, Opt.OwnedBy)) && col == ToS(Fetch(o, Opt.OwnedBy)))
      && OwnedByNone !in cs && IfExists !in cs
      && (forall c :: c in cs ==> Slot(c) != 7 && Slot(c) != 11)
  {
    forall col ensures OwnedBy(col) in cs <==> Truthy(Fetch(o, Opt.OwnedBy)) && col == ToS(Fetch(o, Opt.OwnedBy)) {
      assert OwnedBy(col) in cs <==> OwnedBy(col) in CreatePart(q, o, 10);
    }
    assert OwnedByNone in cs <==> OwnedByNone in CreatePart(q, o, 10);
    assert IfExists in cs <==> IfExists in CreatePart(q, o, 0);
    EmptySlotOf(cs, Create, q, o, 7);
    EmptySlotOf(cs, Create, q, o, 11);
  }

  /**
   * `reverse_merge` fills `start`, `increment_by` and `cache` with 1 only
   * for keys the caller left out: a key the caller passed wins, an explicit
   * nil included (which then drops the clause).
   */
  lemma CreateDefaultsFillAbsentKeys(q: string, options: Options)
    ensures var cs := Clauses(Create, q, ReverseMerge(options, CreateDefaults()));
      && (forall v :: StartWith(v) in cs <==>
            if Opt.Start in options then Truthy(options[Opt.Start]) && v == ToS(options[Opt.Start]) else v == "1")
      && (forall v :: IncrementBy(v) in cs <==>
            if Opt.IncrementBy in options then Truthy(options[Opt.IncrementBy]) && v == ToS(options[Opt.IncrementBy])
            else v == "1")
      && (forall v :: Cache(v) in cs <==>
            if Opt.Cache in options then Truthy(options[Opt.Cache]) && v == ToS(options[Opt.Cache]) else v == "1")
  {
    var o := ReverseMerge(options, CreateDefaults());
    assert ToS(Int(1)) == "1";
    assert Fetch(o, Opt.Start) == if Opt.Start in options then options[Opt.Start] else Int(1);
    assert Fetch(o, Opt.IncrementBy) == if Opt.IncrementBy in options then options[Opt.IncrementBy] else Int(1);
    assert Fetch(o, Opt.Cache) == if Opt.Cache in options then options[Opt.Cache] else Int(1);
    ClausesListed(Create, q, o);
    CommonRulesOf(Clauses(Create, q, o), Create, q, o);
  }

  /**
   * The flags `create_sequence` defaults to false (`cycle`, `if_not_exists`)
   * are on only when the caller passes a truthy value, and nothing is merged
   * for `minvalue` or `maxvalue`, so their clauses depend on the caller alone.
   */
  lemma CreateFlagDefaults(q: string, options: Options)
    ensures var cs := Clauses(Create, q, ReverseMerge(options, CreateDefaults()));
      && (Cycle in cs <==> Opt.Cycle in options && Truthy(options[Opt.Cycle]))
      && (IfNotExists in cs <==> Opt.IfNotExists in options && Truthy(options[Opt.IfNotExists]))
      && (NoMinValue in cs <==> !Truthy(Fetch(options, Opt.MinValue)))
      && (NoMaxValue in cs <==> !Truthy(Fetch(options, Opt.MaxValue)))
  {
    var o := ReverseMerge(options, CreateDefaults());
    assert Fetch(o, Opt.Cycle) == if Opt.Cycle in options then options[Opt.Cycle] else False;
    assert Fetch(o, Opt.IfNotExists) == if Opt.IfNotExists in options then options[Opt.IfNotExists] else False;
    assert Fetch(o, Opt.MinValue) == Fetch(options, Opt.MinValue);
    assert Fetch(o, Opt.MaxValue) == Fetch(options, Opt.MaxValue);
    ClausesListed(Create, q, o);
    CommonRulesOf(Clauses(Create, q, o), Create, q, o);
    assert IfNotExists in Clauses(Create, q, o) <==> IfNotExists in CreatePart(q, o, 0);
  }

  /**
   * `create_sequence` merges defaults for seven keys only; every other key
   * (`minvalue`, `maxvalue`, `restart`, `if_exists`, `drop_behavior`, any
   * unknown key) is read exactly as the caller gave it.
   */
  lemma CreateMergesOnlyItsDefaults(options: Options)
    ensures CreateDefaults().Keys
      == {Opt.Start, Opt.IncrementBy, Opt.Cache, Opt.Cycle, Opt.DataType, Opt.OwnedBy, Opt.IfNotExists}
    ensures forall k :: k !in CreateDefaults() ==> Fetch(ReverseMerge(options, CreateDefaults()), k) == Fetch(options, k)
  {
  }

  /** The values `create_sequence` reads from its defaults alone. */
  lemma CreateDefaultValues()
    ensures var o := CreateDefaults();
      && Fetch(o, Opt.IfNotExists) == False && Fetch(o, Opt.DataType) == Nil && Fetch(o, Opt.IncrementBy) == Int(1)
      && Fetch(o, Opt.MinValue) == Nil && Fetch(o, Opt.MaxValue) == Nil && Fetch(o, Opt.Start) == Int(1)
      && Fetch(o, Opt.Cache) == Int(1) && Fetch(o, Opt.Cycle) == False && Fetch(o, Opt.OwnedBy) == Nil
  {
  }

  lemma CreateDefaultHeadParts(q: string)
    ensures var part := Parts(Create, q, CreateDefaults());
      && part(0) == [] && part(1) == [Name(q)] && part(2) == [] && part(3) == [IncrementBy("1")]
      && part(4) == [NoMinValue] && part(5) == [NoMaxValue]
  {
    CreateDefaultValues();
    assert ToS(Int(1)) == "1";
  }

  lemma CreateDefaultTailParts(q: string)
    ensures var part := Parts(Create, q, CreateDefaults());
      && part(6) == [StartWith("1")] && part(7) == []
      && part(8) == [Cache("1")] && part(9) == [NoCycle] && part(10) == [] && part(11) == []
  {
    CreateDefaultValues();
    assert ToS(Int(1)) == "1";
  }

  /** With no options, `create_sequence` lists the name and the defaults, and unbounds the sequence. */
  lemma CreateDefaultClauses(q: string)
    ensures Clauses(Create, q, CreateDefaults())
      == [Name(q), IncrementBy("1"), NoMinValue, NoMaxValue, StartWith("1"), Cache("1"), NoCycle]
  {
    CreateDefaultHeadParts(q);
    CreateDefaultTailParts(q);
    Layout.AssembleUnrolled(Parts(Create, q, CreateDefaults()));
  }

  lemma EmitCreateDefaults(s: string, q: string)
    ensures Emit(s, [Name(q), IncrementBy("1"), NoMinValue, NoMaxValue, StartWith("1"), Cache("1"), NoCycle]) ==
      s + (" " + q) + " INCREMENT BY 1" + " NO MINVALUE" + " NO MAXVALUE" + " START WITH 1" + " CACHE 1" + " NO CYCLE"
  {
    var c1 := [Name(q)];
    var c2 := c1 + [IncrementBy("1")];
    var c3 := c2 + [NoMinValue];
    var c4 := c3 + [NoMaxValue];
    var c5 := c4 + [StartWith("1")];
    var c6 := c5 + [Cache("1")];
    assert c6 + [NoCycle] == [Name(q), IncrementBy("1"), NoMinValue, NoMaxValue, StartWith("1"), Cache("1"), NoCycle];
    EmitSnoc(s, c6, NoCycle);
    EmitSnoc(s, c5, Cache("1"));
    EmitSnoc(s, c4, StartWith("1"));
    EmitSnoc(s, c3, NoMaxValue);
    EmitSnoc(s, c2, NoMinValue);
    EmitSnoc(s, c1, IncrementBy("1"));
    EmitOne(s, Name(q));
  }

  /**
   * With no options, `create_sequence` renders exactly
   * `CREATE SEQUENCE <q> INCREMENT BY 1 NO MINVALUE NO MAXVALUE START WITH 1 CACHE 1 NO CYCLE`.
   */
  lemma CreateWithoutOptions(quote: string -> string, name: string)
    ensures CreateStatement(quote, name, map[]) ==
      "CREATE SEQUENCE" + (" " + quote(name)) + " INCREMENT BY 1" + " NO MINVALUE" + " NO MAXVALUE"
      + " START WITH 1" + " CACHE 1" + " NO CYCLE"
  {
    ReverseMergeEmpty(CreateDefaults());
    CreateDefaultClauses(quote(name));
    EmitCreateDefaults("CREATE SEQUENCE", quote(name));
  }

  // ---------------------------------------------------------------- ALTER

  /**
   * What `alter_sequence` appends in grammar slot `slot`; no defaults are
   * merged. The restart slot has two guards, a bare `RESTART` for a key
   * present with value nil and `RESTART WITH v` for a truthy value; the
   * ownership slot always holds a clause.
   */
  function AlterPart(q: string, o: Options, slot: nat): (part: seq<Clause>)
    ensures Layout.InSlot(Slot, part, slot)
  {
    match slot
    case 0 => When(Truthy(Fetch(o, Opt.IfExists)), IfExists)
    case 1 => [Name(q)]
    case 7 =>
      When(Fetch(o, Opt.Restart).Nil? && Opt.Restart in o, Restart)
      + When(Truthy(Fetch(o, Opt.Restart)), RestartWith(ToS(Fetch(o, Opt.Restart))))
    case 10 => [if Truthy(Fetch(o, Opt.OwnedBy)) then OwnedBy(ToS(Fetch(o, Opt.OwnedBy))) else OwnedByNone]
    case _ => CommonPart(o, slot)
  }

  /** The statement `alter_sequence(name, options)` executes. */
  function AlterStatement(quote: string -> string, name: string, options: Options): string {
    Statement(Alter, quote(name), options)
  }

  /**
   * `IF EXISTS` is present iff `if_exists` is truthy, and then it comes right
   * before the quoted name; otherwise the name comes first. `IF NOT EXISTS`
   * never appears.
   */
  lemma AlterHead(q: string, o: Options)
    ensures var cs := Clauses(Alter, q, o);
      && (IfExists in cs <==> Truthy(Fetch(o, Opt.IfExists)))
      && IfNotExists !in cs
      && (if Truthy(Fetch(o, Opt.IfExists))
          then |cs| >= 2 && cs[0] == IfExists && cs[1] == Name(q)
          else |cs| >= 1 && cs[0] == Name(q))
  {
    ClausesListed(Alter, q, o);
    ClausesOrdered(Alter, q, o);
    HeadOf(Clauses(Alter, q, o), Alter, q, o, IfExists);
    assert IfNotExists in Clauses(Alter, q, o) <==> IfNotExists in AlterPart(q, o, 0);
  }

  /**
   * The remaining clause rules of `alter_sequence`: the shared rules;
   * exactly one ownership clause, `OWNED BY NONE` when `owned_by` is falsy;
   * no drop-behaviour clause.
   */
  lemma AlterRules(q: string, o: Options)
    ensures var cs := Clauses(Alter, q, o);
      && CommonRules(cs, o)
      && (OwnedByNone in cs <==> !Truthy(Fetch(o, Opt.OwnedBy)))
      && (forall col :: OwnedBy(col) in cs <==> Truthy(Fetch(o, Opt.OwnedBy)) && col == ToS(Fetch(o, Opt.OwnedBy)))
      && (forall c :: c in cs ==> Slot(c) != 11)
  {
    ClausesListed(Alter, q, o);
    CommonRulesOf(Clauses(Alter, q, o), Alter, q, o);
    AlterOwnershipOf(Clauses(Alter, q, o), q, o);
  }

  lemma AlterOwnershipOf(cs: seq<Clause>, q: string, o: Options)
    requires Listed(cs, Alter, q, o)
    ensures && (OwnedByNone in cs <==> !Truthy(Fetch(o, Opt.OwnedBy)))
      && (forall col :: OwnedBy(col) in cs <==> Truthy(Fetch(o, Opt.OwnedBy)) && col == ToS(Fetch(o, Opt.OwnedBy)))
      && (forall c :: c in cs ==> Slot(c) != 11)
  {
    forall col ensures OwnedBy(col) in cs <==> Truthy(Fetch(o, Opt.OwnedBy)) && col == ToS(Fetch(o, Opt.OwnedBy)) {
      assert OwnedBy(col) in cs <==> OwnedBy(col) in AlterPart(q, o, 10);
    }
    assert OwnedByNone in cs <==> OwnedByNone in AlterPart(q, o, 10);
    EmptySlotOf(cs, Alter, q, o, 11);
  }

  /**
   * The three-way restart rule: without a `restart` key there is no restart
   * clause, `restart: nil` gives a bare `RESTART`, a truthy value `v` gives
   * `RESTART WITH v` (and `restart: false` nothing).
   */
  lemma AlterRestartRule(q: string, o: Options)
    ensures var cs := Clauses(Alter, q, o);
      && (Opt.Restart !in o ==> forall c :: c in cs ==> Slot(c) != 7)
      && (Restart in cs <==> Opt.Restart in o && o[Opt.Restart] == Nil)
      && (forall v :: RestartWith(v) in cs <==> Truthy(Fetch(o, Opt.Restart)) && v == ToS(Fetch(o, Opt.Restart)))
  {
    ClausesListed(Alter, q, o);
    AlterRestartRuleOf(Clauses(Alter, q, o), q, o);
  }

  lemma AlterRestartRuleOf(cs: seq<Clause>, q: string, o: Options)
    requires Listed(cs, Alter, q, o)
    ensures && (Opt.Restart !in o ==> forall c :: c in cs ==> Slot(c) != 7)
      && (Restart in cs <==> Opt.Restart in o && o[Opt.Restart] == Nil)
      && (forall v :: RestartWith(v) in cs <==> Truthy(Fetch(o, Opt.Restart)) && v == ToS(Fetch(o, Opt.Restart)))
  {
    if Opt.Restart !in o {
      EmptySlotOf(cs, Alter, q, o, 7);
    }
    assert Restart in cs <==> Restart in AlterPart(q, o, 7);
    forall v ensures RestartWith(v) in cs <==> Truthy(Fetch(o, Opt.Restart)) && v == ToS(Fetch(o, Opt.Restart)) {
      assert RestartWith(v) in cs <==> RestartWith(v) in AlterPart(q, o, 7);
    }
  }

  /** In any ordered clause list, at most one restart clause, after any `START WITH` and before any `CACHE`. */
  lemma RestartBetween(cs: seq<Clause>)
    requires Layout.Ordered(Slot, cs)
    ensures forall i, j :: 0 <= i < |cs| && 0 <= j < |cs| && Slot(cs[i]) == 7 ==>
      (Slot(cs[j]) == 7 ==> i == j) && (cs[j].StartWith? ==> j < i) && (cs[j].Cache? ==> i < j)
  {
    forall i, j | 0 <= i < |cs| && 0 <= j < |cs| && Slot(cs[i]) == 7
      ensures (Slot(cs[j]) == 7 ==> i == j) && (cs[j].StartWith? ==> j < i) && (cs[j].Cache? ==> i < j)
    {
      Layout.OrderedPlacement(Slot, cs, i, j);
      Layout.OrderedPlacement(Slot, cs, j, i);
    }
  }

  /** At most one restart clause is ever emitted, after any `START WITH` and before any `CACHE`. */
  lemma AlterRestartPlacement(q: string, o: Options)
    ensures var cs := Clauses(Alter, q, o);
      forall i, j :: 0 <= i < |cs| && 0 <= j < |cs| && Slot(cs[i]) == 7 ==>
        (Slot(cs[j]) == 7 ==> i == j) && (cs[j].StartWith? ==> j < i) && (cs[j].Cache? ==> i < j)
  {
    ClausesOrdered(Alter, q, o);
    RestartBetween(Clauses(Alter, q, o));
  }

  lemma AlterDefaultParts(q: string)
    ensures var part := Parts(Alter, q, map[]);
      && part(0) == [] && part(1) == [Name(q)] && part(2) == [] && part(3) == []
      && part(4) == [NoMinValue] && part(5) == [NoMaxValue] && part(6) == [] && part(7) == []
      && part(8) == [] && part(9) == [NoCycle] && part(10) == [OwnedByNone] && part(11) == []
  {
  }

  /** With no options, `alter_sequence` merges nothing: it unbounds, stops cycling and disowns the sequence. */
  lemma AlterDefaultClauses(q: string)
    ensures Clauses(Alter, q, map[]) == [Name(q), NoMinValue, NoMaxValue, NoCycle, OwnedByNone]
  {
    AlterDefaultParts(q);
    Layout.AssembleUnrolled(Parts(Alter, q, map[]));
  }

  lemma EmitAlterDefaults(s: string, q: string)
    ensures Emit(s, [Name(q), NoMinValue, NoMaxValue, NoCycle, OwnedByNone]) ==
      s + (" " + q) + " NO MINVALUE" + " NO MAXVALUE" + " NO CYCLE" + " OWNED BY NONE"
  {
    var c1 := [Name(q)];
    var c2 := c1 + [NoMinValue];
    var c3 := c2 + [NoMaxValue];
    var c4 := c3 + [NoCycle];
    assert c4 + [OwnedByNone] == [Name(q), NoMinValue, NoMaxValue, NoCycle, OwnedByNone];
    EmitSnoc(s, c4, OwnedByNone);
    EmitSnoc(s, c3, NoCycle);
    EmitSnoc(s, c2, NoMaxValue);
    EmitSnoc(s, c1, NoMinValue);
    EmitOne(s, Name(q));
  }

  /**
   * With no options, `alter_sequence` renders exactly
   * `ALTER SEQUENCE <q> NO MINVALUE NO MAXVALUE NO CYCLE OWNED BY NONE`.
   */
  lemma AlterWithoutOptions(quote: string -> string, name: string)
    ensures AlterStatement(quote, name, map[]) ==
      "ALTER SEQUENCE" + (" " + quote(name)) + " NO MINVALUE" + " NO MAXVALUE" + " NO CYCLE" + " OWNED BY NONE"
  {
    AlterDefaultClauses(quote(name));
    EmitAlterDefaults("ALTER SEQUENCE", quote(name));
  }

  /** Adding a key the methods do not read changes neither the value nor the presence of one they do. */
  lemma FetchIgnoresOther(o: Options, symbol: Opt.UnreadName, v: Value)
    ensures forall key: Opt.Key | !key.Other? ::
      Fetch(o[Opt.Other(symbol) := v], key) == Fetch(o, key) && (key in o[Opt.Other(symbol) := v] <==> key in o)
  {
  }

  lemma PartIgnoresOther(verb: Verb, q: string, o: Options, symbol: Opt.UnreadName, v: Value, k: nat)
    ensures Part(verb, q, o[Opt.Other(symbol) := v], k) == Part(verb, q, o, k)
  {
    FetchIgnoresOther(o, symbol, v);
  }

  /** A key the methods do not read changes no clause of any statement. */
  lemma ClausesIgnoreOther(verb: Verb, q: string, o: Options, symbol: Opt.UnreadName, v: Value)
    ensures Clauses(verb, q, o[Opt.Other(symbol) := v]) == Clauses(verb, q, o)
  {
    var o2 := o[Opt.Other(symbol) := v];
    forall k: nat | k < Layout.SlotCount ensures Parts(verb, q, o2)(k) == Parts(verb, q, o)(k) {
      PartIgnoresOther(verb, q, o, symbol, v, k);
    }
    Layout.AssembleAgree(Parts(verb, q, o2), Parts(verb, q, o), 0);
  }

  /**
   * `alter_sequence` ignores option keys it does not read: in particular a
   * `restart_with:` key, which it never looks at, leaves the statement as it
   * was, with no `RESTART` clause.
   */
  lemma AlterIgnoresOtherKeys(quote: string -> string, name: string, options: Options, symbol: Opt.UnreadName, v: Value)
    ensures AlterStatement(quote, name, options[Opt.Other(symbol) := v]) == AlterStatement(quote, name, options)
  {
    ClausesIgnoreOther(Alter, quote(name), options, symbol, v);
  }

  /** `alter_sequence(name, restart_with: v)` renders the same text as `alter_sequence(name)`. */
  lemma AlterRestartWithKey(quote: string -> string, name: string, v: Value)
    ensures AlterStatement(quote, name, map[Opt.Other("restart_with") := v]) ==
      "ALTER SEQUENCE" + (" " + quote(name)) + " NO MINVALUE" + " NO MAXVALUE" + " NO CYCLE" + " OWNED BY NONE"
  {
    var empty: Options := map[];
    assert empty[Opt.Other("restart_with") := v] == map[Opt.Other("restart_with") := v];
    AlterIgnoresOtherKeys(quote, name, empty, "restart_with", v);
    AlterWithoutOptions(quote, name);
  }

  // ---------------------------------------------------------------- DROP

  /** The defaults `drop_sequence` merges under the caller's options. */
  function DropDefaults(): Options {
    map[Opt.IfExists := False, Opt.DropBehavior := Sym("restrict")]
  }

  /** `.in?([:cascade, :restrict])`: the drop behaviours passed through; any other value is left out. */
  predicate KnownBehavior(v: Value) {
    v == Sym("cascade") || v == Sym("restrict")
  }

  /** The behaviour clause: the upcased symbol when it is `:cascade` or `:restrict`, else nothing. */
  function BehaviorPart(behavior: Value): (part: seq<Clause>)
    ensures Layout.InSlot(Slot, part, 11)
  {
    match behavior
    case Sym(symbol) => When(KnownBehavior(behavior), Behavior(Upcase(ToS(behavior))))
    case _ => []
  }

  /** What `drop_sequence` appends in grammar slot `slot` (options already merged). */
  function DropPart(q: string, o: Options, slot: nat): (part: seq<Clause>)
    ensures Layout.InSlot(Slot, part, slot)
  {
    match slot
    case 0 => When(Truthy(Fetch(o, Opt.IfExists)), IfExists)
    case 1 => [Name(q)]
    case 11 => BehaviorPart(Fetch(o, Opt.DropBehavior))
    case _ => []
  }

  /** The statement `drop_sequence(name, options)` executes. */
  function DropStatement(quote: string -> string, name: string, options: Options): string {
    Statement(Drop, quote(name), ReverseMerge(options, DropDefaults()))
  }

  /** `to_s.upcase` of `:cascade` is `CASCADE`. */
  lemma UpcaseCascade()
    ensures Upcase(ToS(Sym("cascade"))) == "CASCADE"
  {
    var c := Upcase("cascade");
    assert forall i | 0 <= i < 7 :: c[i] == "CASCADE"[i];
  }

  /** `to_s.upcase` of `:restrict` is `RESTRICT`. */
  lemma UpcaseRestrict()
    ensures Upcase(ToS(Sym("restrict"))) == "RESTRICT"
  {
    var r := Upcase("restrict");
    assert forall i | 0 <= i < 8 :: r[i] == "RESTRICT"[i];
  }

  /**
   * `IF EXISTS` is present iff the caller passed a truthy `if_exists`, and
   * then right before the quoted name; nothing but `IF EXISTS`, the name and
   * a behaviour keyword ever appears.
   */
  lemma DropRules(q: string, options: Options)
    ensures var cs := Clauses(Drop, q, ReverseMerge(options, DropDefaults()));
      && (IfExists in cs <==> Opt.IfExists in options && Truthy(options[Opt.IfExists]))
      && (if IfExists in cs
          then |cs| >= 2 && cs[0] == IfExists && cs[1] == Name(q)
          else |cs| >= 1 && cs[0] == Name(q))
      && (forall c :: c in cs ==> c.IfExists? || c.Name? || c.Behavior?)
  {
    var o := ReverseMerge(options, DropDefaults());
    assert Fetch(o, Opt.IfExists) == if Opt.IfExists in options then options[Opt.IfExists] else False;
    ClausesListed(Drop, q, o);
    ClausesOrdered(Drop, q, o);
    HeadOf(Clauses(Drop, q, o), Drop, q, o, IfExists);
    DropKindsOf(Clauses(Drop, q, o), q, o);
  }

  lemma DropKindsOf(cs: seq<Clause>, q: string, o: Options)
    requires Listed(cs, Drop, q, o)
    ensures forall c :: c in cs ==> c.IfExists? || c.Name? || c.Behavior?
  {
    forall c | c in cs ensures c.IfExists? || c.Name? || c.Behavior? {
      assert c in DropPart(q, o, Slot(c));
    }
  }

  /**
   * `CASCADE` / `RESTRICT` appears only when `drop_behavior` is exactly the
   * symbol `:cascade` / `:restrict`, `:restrict` being the default; an
   * explicit nil or any other value gives no behaviour clause.
   */
  lemma DropBehaviorRule(q: string, options: Options)
    ensures var behavior := if Opt.DropBehavior in options then options[Opt.DropBehavior] else Sym("restrict");
      var cs := Clauses(Drop, q, ReverseMerge(options, DropDefaults()));
      forall w :: Behavior(w) in cs <==>
        (behavior == Sym("cascade") && w == "CASCADE") || (behavior == Sym("restrict") && w == "RESTRICT")
  {
    var o := ReverseMerge(options, DropDefaults());
    var behavior := if Opt.DropBehavior in options then options[Opt.DropBehavior] else Sym("restrict");
    assert Fetch(o, Opt.DropBehavior) == behavior;
    ClausesListed(Drop, q, o);
    DropBehaviorOf(Clauses(Drop, q, o), q, o);
  }

  /** The behaviour slot of `drop_sequence` written out for the two known symbols. */
  lemma DropBehaviorPart(q: string, o: Options)
    ensures var b := Fetch(o, Opt.DropBehavior);
      DropPart(q, o, 11) ==
        if b == Sym("cascade") then [Behavior("CASCADE")]
        else if b == Sym("restrict") then [Behavior("RESTRICT")]
        else []
  {
    var b := Fetch(o, Opt.DropBehavior);
    if b == Sym("cascade") {
      UpcaseCascade();
    } else if b == Sym("restrict") {
      UpcaseRestrict();
    }
  }

  /** A behaviour clause is listed exactly when the behaviour slot holds it. */
  lemma BehaviorListed(cs: seq<Clause>, q: string, o: Options, w: string)
    requires Listed(cs, Drop, q, o)
    ensures Behavior(w) in cs <==> Behavior(w) in DropPart(q, o, 11)
  {
    assert Slot(Behavior(w)) == 11;
  }

  lemma DropBehaviorOf(cs: seq<Clause>, q: string, o: Options)
    requires Listed(cs, Drop, q, o)
    ensures var behavior := Fetch(o, Opt.DropBehavior);
      forall w :: Behavior(w) in cs <==>
        (behavior == Sym("cascade") && w == "CASCADE") || (behavior == Sym("restrict") && w == "RESTRICT")
  {
    var b := Fetch(o, Opt.DropBehavior);
    DropBehaviorPart(q, o);
    forall w ensures Behavior(w) in cs <==> (b == Sym("cascade") && w == "CASCADE") || (b == Sym("restrict") && w == "RESTRICT") {
      BehaviorListed(cs, q, o, w);
    }
  }

  lemma DropDefaultParts(q: string)
    ensures var part := Parts(Drop, q, DropDefaults());
      && part(0) == [] && part(1) == [Name(q)]
      && part(2) == [] && part(3) == [] && part(4) == [] && part(5) == [] && part(6) == []
      && part(7) == [] && part(8) == [] && part(9) == [] && part(10) == []
  {
    assert Fetch(DropDefaults(), Opt.IfExists) == False;
  }

  lemma DropDefaultBehavior(q: string)
    ensures Parts(Drop, q, DropDefaults())(11) == [Behavior("RESTRICT")]
  {
    assert Fetch(DropDefaults(), Opt.DropBehavior) == Sym("restrict");
    DropBehaviorPart(q, DropDefaults());
  }

  /** Plain `drop_sequence(name)` lists the name and the default `RESTRICT`. */
  lemma DropDefaultClauses(q: string)
    ensures Clauses(Drop, q, DropDefaults()) == [Name(q), Behavior("RESTRICT")]
  {
    DropDefaultParts(q);
    DropDefaultBehavior(q);
    Layout.AssembleUnrolled(Parts(Drop, q, DropDefaults()));
  }

  lemma EmitDropDefaults(s: string, q: string)
    ensures Emit(s, [Name(q), Behavior("RESTRICT")]) == s + (" " + q) + " RESTRICT"
  {
    assert [Name(q)] + [Behavior("RESTRICT")] == [Name(q), Behavior("RESTRICT")];
    EmitSnoc(s, [Name(q)], Behavior("RESTRICT"));
    EmitOne(s, Name(q));
  }

  lemma DropDefaultStatement(q: string)
    ensures Statement(Drop, q, DropDefaults()) == "DROP SEQUENCE" + (" " + q) + " RESTRICT"
  {
    DropDefaultClauses(q);
    EmitDropDefaults("DROP SEQUENCE", q);
  }

  /** Plain `drop_sequence(name)` renders exactly `DROP SEQUENCE <q> RESTRICT`. */
  lemma DropWithoutOptions(quote: string -> string, name: string)
    ensures DropStatement(quote, name, map[]) == "DROP SEQUENCE" + (" " + quote(name)) + " RESTRICT"
  {
    ReverseMergeEmpty(DropDefaults());
    DropDefaultStatement(quote(name));
  }

  /** The `DROP SEQUENCE` clauses depend on the merged options only through `if_exists` and `drop_behavior`. */
  lemma DropClausesAgree(q: string, o1: Options, o2: Options)
    requires Fetch(o1, Opt.IfExists) == Fetch(o2, Opt.IfExists)
    requires Fetch(o1, Opt.DropBehavior) == Fetch(o2, Opt.DropBehavior)
    ensures Clauses(Drop, q, o1) == Clauses(Drop, q, o2)
  {
    forall k: nat | k < Layout.SlotCount ensures Parts(Drop, q, o1)(k) == Parts(Drop, q, o2)(k) {
    }
    Layout.AssembleAgree(Parts(Drop, q, o1), Parts(Drop, q, o2), 0);
  }

  /**
   * `drop_sequence` reads no option but `if_exists` and `drop_behavior`: two
   * option hashes that agree on those keys (on presence too, since a present
   * nil `drop_behavior` overrides the default) give the same statement.
   */
  lemma DropReadsOnlyItsKeys(quote: string -> string, name: string, a: Options, b: Options)
    requires Opt.IfExists in a <==> Opt.IfExists in b
    requires Opt.IfExists in a ==> a[Opt.IfExists] == b[Opt.IfExists]
    requires Opt.DropBehavior in a <==> Opt.DropBehavior in b
    requires Opt.DropBehavior in a ==> a[Opt.DropBehavior] == b[Opt.DropBehavior]
    ensures DropStatement(quote, name, a) == DropStatement(quote, name, b)
  {
    var oa, ob := ReverseMerge(a, DropDefaults()), ReverseMerge(b, DropDefaults());
    assert Fetch(oa, Opt.IfExists) == Fetch(ob, Opt.IfExists);
    assert Fetch(oa, Opt.DropBehavior) == Fetch(ob, Opt.DropBehavior);
    DropClausesAgree(quote(name), oa, ob);
  }

  /**
   * Options that carry neither `if_exists` nor `drop_behavior` are all
   * ignored by `drop_sequence`: the statement is the plain
   * `DROP SEQUENCE <q> RESTRICT`.
   */
  lemma DropIgnoresUnreadOptions(quote: string -> string, name: string, options: Options)
    requires Opt.IfExists !in options && Opt.DropBehavior !in options
    ensures DropStatement(quote, name, options) == "DROP SEQUENCE" + (" " + quote(name)) + " RESTRICT"
  {
    DropReadsOnlyItsKeys(quote, name, options, map[]);
    DropWithoutOptions(quote, name);
  }
}
