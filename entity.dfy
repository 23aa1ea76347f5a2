/** `PgExternEntity` and its `to_sql`: the `CREATE FUNCTION` statement of a `#[pg_extern]`
    function and, for an operator, the `CREATE OPERATOR` statement after it
    (pgx-utils/src/sql_entity_graph/pg_extern/entity/mod.rs). */
module PgExternSql {
  import opened Wrappers
  import opened Text

  /** A `core::any::TypeId`. */
  type TypeId = nat

  /** How a Rust type maps to SQL: a fixed SQL name, a `composite_type!` whose name is only known
      from the declaration, or nothing at all (an argument SQL never sees). */
  datatype SqlVariant = Mapped(sql: string) | Composite(requiresArrayBrackets: bool) | Skip

  /** One argument of `FunctionMetadataEntity`. `argumentSql` is the result of the type's SQL
      mapping, whose error is kept as its message. */
  datatype ArgumentMetadata = ArgumentMetadata(
    typeId: TypeId, typeName: string, optional: bool, variadic: bool,
    argumentSql: Result<SqlVariant, string>)

  datatype ReturnVariant = Plain(variant: SqlVariant) | SetOfVariant(variant: SqlVariant) | Table(columns: seq<SqlVariant>)

  datatype ReturnMetadata = ReturnMetadata(typeId: TypeId, typeName: string, returnSql: Result<ReturnVariant, string>)

  /** `FunctionMetadataEntity`: what the function's Rust signature says about its SQL types. */
  datatype FunctionMetadata = FunctionMetadata(path: string, arguments: seq<ArgumentMetadata>, retval: Option<ReturnMetadata>)

  datatype UsedType = UsedType(defaultValue: Option<string>, compositeType: Option<string>)

  /** `PgExternArgumentEntity`: the argument's name and what its declaration said. */
  datatype ArgumentEntity = ArgumentEntity(pattern: string, usedTy: UsedType)

  /** `PgExternReturnEntity`: the return shape captured from the declaration. */
  datatype ReturnEntity =
    | FnNone
    | FnType(compositeType: Option<string>)
    | FnSetOf(compositeType: Option<string>)
    | FnIterated(columns: seq<Option<string>>)
    | FnTrigger

  /** `ExternArgs`: `Strict`, `Requires` and the other attributes, which `to_sql` only prints. */
  datatype ExternArg = Strict | Requires(items: seq<string>) | Flag(name: string)

  /** `PgOperatorEntity` */
  datatype OperatorEntity = OperatorEntity(
    opname: Option<string>, commutator: Option<string>, negator: Option<string>,
    restrict: Option<string>, join: Option<string>, hashes: bool, merges: bool)

  datatype PgExternEntity = PgExternEntity(
    name: string, unaliasedName: string, modulePath: string, fullPath: string,
    metadata: FunctionMetadata, fnArgs: seq<ArgumentEntity>, fnReturn: ReturnEntity,
    schema: Option<string>, file: string, line: nat, externAttrs: seq<ExternArg>,
    searchPath: Option<seq<string>>, operator: Option<OperatorEntity>)

  /** The kinds of graph node a type reference can resolve to; `OtherNode` is every other kind. */
  datatype Node = TypeNode(id: TypeId) | EnumNode(id: TypeId) | BuiltinNode(name: string) | OtherNode

  /** A neighbour of the function's node in the entity graph, with what `schema_prefix_for` gives for it. */
  datatype Neighbor = Neighbor(node: Node, schemaPrefix: string)

  /** What `to_sql` reads from `PgxSql`: `schema_prefix_for` of the function's own node, the
      function node's neighbours in iteration order, `internal_type`, `get_module_pathname()`,
      and the `Display` of `ExternArgs`, which is defined outside this model. */
  datatype Context = Context(
    selfPrefix: string, neighbors: seq<Neighbor>, internalType: TypeId,
    modulePathname: string, display: ExternArg -> string)

  /** The error returns of `to_sql` and the panics on its way (`fn_args[idx]` out of range,
      `todo!()`, `opname.unwrap()`), as tags. */
  datatype RenderError =
    | MissingFnArg(index: nat)
    | ArgTypeNotInGraph(index: nat)
    | ArgumentMapping(index: nat, message: string)
    | MissingCompositeName
    | ReturnTypeNotInGraph
    | ReturnMapping(message: string)
    | ReturnShapeMismatch
    | SkippedReturn
    | SkippedSetOfReturn
    | OperatorArgMissing(index: nat)
    | OperatorArgNotInGraph(index: nat)
    | OperatorArgMapping(message: string)
    | OperatorSkippedArg
    | OperatorNameMissing

  // ---------------------------------------------------------------------------
  // Identity

  /** `PartialEq::eq`: two entities are equal when their metadata are. */
  predicate SameFunction(a: PgExternEntity, b: PgExternEntity)
  {
    a.metadata == b.metadata
  }

  datatype Ordering = Less | Equal | Greater

  /** `Ord::cmp`, given the derived ordering of `FunctionMetadataEntity` (defined outside this model). */
  function Compare(a: PgExternEntity, b: PgExternEntity,
                   metadataCmp: (FunctionMetadata, FunctionMetadata) -> Ordering): Ordering
  {
    metadataCmp(a.metadata, b.metadata)
  }

  /** `Hash::hash`, given the derived hash of `FunctionMetadataEntity`. */
  function HashOf(e: PgExternEntity, metadataHash: FunctionMetadata -> int): int
  {
    metadataHash(e.metadata)
  }

  /** Equality, ordering and hashing see the metadata only: replacing every other field
      changes none of them. */
  lemma IdentityIsMetadata(a: PgExternEntity, a': PgExternEntity, b: PgExternEntity,
                           metadataCmp: (FunctionMetadata, FunctionMetadata) -> Ordering,
                           metadataHash: FunctionMetadata -> int)
    requires a'.metadata == a.metadata
    ensures SameFunction(a', b) == SameFunction(a, b) && SameFunction(a, a')
    ensures Compare(a', b, metadataCmp) == Compare(a, b, metadataCmp)
    ensures Compare(b, a', metadataCmp) == Compare(b, a, metadataCmp)
    ensures HashOf(a', metadataHash) == HashOf(a, metadataHash)
  {
  }

  /** `dot_identifier` */
  function DotIdentifier(e: PgExternEntity): string
  {
    "fn " + e.name
  }

  /** Two functions share a graph label exactly when they share a name. */
  lemma DotIdentifierByName(a: PgExternEntity, b: PgExternEntity)
    ensures DotIdentifier(a) == DotIdentifier(b) <==> a.name == b.name
  {
    if DotIdentifier(a) == DotIdentifier(b) {
      assert a.name == DotIdentifier(a)[3..];
    }
  }

  // ---------------------------------------------------------------------------
  // Graph lookup

  /** The match in the `find` closure: a type or an enum by id, a built-in by name. */
  predicate Matches(n: Node, typeId: TypeId, typeName: string)
  {
    match n
    case TypeNode(id) => id == typeId
    case EnumNode(id) => id == typeId
    case BuiltinNode(name) => name == typeName
    case OtherNode => false
  }

  /** `neighbors_undirected(..).find(..)` from position `k` on: the first matching neighbour. */
  function FindFrom(ns: seq<Neighbor>, typeId: TypeId, typeName: string, k: nat): (r: Option<nat>)
    requires k <= |ns|
    ensures r.Some? ==> k <= r.value < |ns| && Matches(ns[r.value].node, typeId, typeName)
                        && forall j :: k <= j < r.value ==> !Matches(ns[j].node, typeId, typeName)
    ensures r.None? ==> forall j :: k <= j < |ns| ==> !Matches(ns[j].node, typeId, typeName)
    decreases |ns| - k
  {
    if k == |ns| then None
    else if Matches(ns[k].node, typeId, typeName) then Some(k)
    else FindFrom(ns, typeId, typeName, k + 1)
  }

  function FindNeighbor(ns: seq<Neighbor>, typeId: TypeId, typeName: string): Option<nat>
  {
    FindFrom(ns, typeId, typeName, 0)
  }

  // ---------------------------------------------------------------------------
  // Strict upgrade

  predicate NullableOrInternal(a: ArgumentMetadata, internalType: TypeId)
  {
    a.optional || a.typeId == internalType
  }

  /** `STRICT` is added when it is not there yet and no argument is optional or `internal`. */
  predicate NeedsStrict(attrs: seq<ExternArg>, args: seq<ArgumentMetadata>, internalType: TypeId)
  {
    Strict !in attrs && forall i :: 0 <= i < |args| ==> !NullableOrInternal(args[i], internalType)
  }

  function WithStrict(attrs: seq<ExternArg>, args: seq<ArgumentMetadata>, internalType: TypeId): seq<ExternArg>
  {
    if NeedsStrict(attrs, args, internalType) then attrs + [Strict] else attrs
  }

  /** The `strict_upgrade` loop of `to_sql`. */
  method UpgradeStrict(attrs: seq<ExternArg>, args: seq<ArgumentMetadata>, internalType: TypeId)
    returns (out: seq<ExternArg>)
    ensures NeedsStrict(attrs, args, internalType) ==> out == attrs + [Strict]
    ensures !NeedsStrict(attrs, args, internalType) ==> out == attrs
  {
    out := attrs;
    var strictUpgrade := Strict !in attrs;
    if strictUpgrade {
      var i := 0;
      while i < |args|
        invariant 0 <= i <= |args|
        invariant strictUpgrade <==> forall k :: 0 <= k < i ==> !NullableOrInternal(args[k], internalType)
      {
        if args[i].optional || args[i].typeId == internalType {
          strictUpgrade := false;
        }
        i := i + 1;
      }
    }
    if strictUpgrade {
      out := out + [Strict];
    }
  }

  /** The upgrade only appends, appends `STRICT` at most once, keeps an existing `STRICT` as the
      only one, never fires with an optional or `internal` argument, and is idempotent. */
  lemma StrictUpgradeFacts(attrs: seq<ExternArg>, args: seq<ArgumentMetadata>, internalType: TypeId)
    ensures var r := WithStrict(attrs, args, internalType);
      && r[..|attrs|] == attrs && |attrs| <= |r| <= |attrs| + 1
      && (Strict in r <==> Strict in attrs || forall i :: 0 <= i < |args| ==> !NullableOrInternal(args[i], internalType))
      && multiset(r)[Strict] == (if NeedsStrict(attrs, args, internalType) then 1 else multiset(attrs)[Strict])
      && ((exists i :: 0 <= i < |args| && NullableOrInternal(args[i], internalType)) ==> r == attrs)
      && WithStrict(r, args, internalType) == r
  {
    var r := WithStrict(attrs, args, internalType);
    if NeedsStrict(attrs, args, internalType) {
      assert r[..|attrs|] == attrs;
      assert multiset(attrs)[Strict] == 0;
      assert Strict in r;
    }
  }

  // ---------------------------------------------------------------------------
  // Arguments

  function CompositeSql(name: string, requiresArrayBrackets: bool): string
  {
    if requiresArrayBrackets then name + "[]" else name
  }

  /** The line of one argument: `\t"<pattern>" [VARIADIC ]<prefix><sql>[ DEFAULT <d>]<comma>/* <type> */`. */
  function ArgumentLine(pattern: string, variadic: bool, prefix: string, sqlType: string,
                        defaultValue: Option<string>, needsComma: bool, typeName: string): string
  {
    "\t\"" + pattern + "\" " + (if variadic then "VARIADIC " else "") + prefix + sqlType
    + (if defaultValue.Some? then " DEFAULT " + defaultValue.value else "")
    + (if needsComma then ", " else " ") + "/* " + typeName + " */"
  }

  /** One iteration of the argument loop: a line, nothing (a `Skip` argument), or an error. */
  function ArgumentEntry(e: PgExternEntity, ctx: Context, i: nat): Result<Option<string>, RenderError>
    requires i < |e.metadata.arguments|
  {
    var arg := e.metadata.arguments[i];
    if i >= |e.fnArgs| then Err(MissingFnArg(i))
    else
      var fnArg := e.fnArgs[i];
      var found := FindNeighbor(ctx.neighbors, arg.typeId, arg.typeName);
      if found.None? then Err(ArgTypeNotInGraph(i))
      else
        var needsComma := i < |e.metadata.arguments| - 1;
        var prefix := ctx.neighbors[found.value].schemaPrefix;
        match arg.argumentSql
        case Err(m) => Err(ArgumentMapping(i, m))
        case Ok(Skip) => Ok(None)
        case Ok(Mapped(sql)) =>
          Ok(Some(ArgumentLine(fnArg.pattern, arg.variadic, prefix, sql, fnArg.usedTy.defaultValue, needsComma, arg.typeName)))
        case Ok(Composite(brackets)) =>
          match fnArg.usedTy.compositeType
          case None => Err(MissingCompositeName)
          case Some(v) =>
            Ok(Some(ArgumentLine(fnArg.pattern, arg.variadic, prefix, CompositeSql(v, brackets),
                                 fnArg.usedTy.defaultValue, needsComma, arg.typeName)))
  }

  /** The lines of the first `n` arguments, in order, or the error of the first that fails. */
  function ArgumentLinesUpTo(e: PgExternEntity, ctx: Context, n: nat): Result<seq<string>, RenderError>
    requires n <= |e.metadata.arguments|
    decreases n
  {
    if n == 0 then Ok([])
    else
      var prev :- ArgumentLinesUpTo(e, ctx, n - 1);
      var entry :- ArgumentEntry(e, ctx, n - 1);
      Ok(prev + if entry.Some? then [entry.value] else [])
  }

  /** The `{arguments}` of `CREATE FUNCTION`. */
  function ArgumentsText(e: PgExternEntity, ctx: Context): Result<string, RenderError>
  {
    if |e.metadata.arguments| == 0 then Ok("")
    else
      var lines :- ArgumentLinesUpTo(e, ctx, |e.metadata.arguments|);
      Ok("\n" + Join(lines, "\n") + "\n")
  }

  lemma {:induction false} ArgumentLinesErrPersists(e: PgExternEntity, ctx: Context, k: nat)
    requires k <= |e.metadata.arguments| && ArgumentLinesUpTo(e, ctx, k).Err?
    ensures ArgumentLinesUpTo(e, ctx, |e.metadata.arguments|) == ArgumentLinesUpTo(e, ctx, k)
    decreases |e.metadata.arguments| - k
  {
    if k < |e.metadata.arguments| {
      ArgumentLinesErrPersists(e, ctx, k + 1);
    }
  }

  /** The argument loop of `to_sql`, which pushes one line per argument that is not skipped. */
  method RenderArguments(e: PgExternEntity, ctx: Context) returns (r: Result<string, RenderError>)
    ensures r == ArgumentsText(e, ctx)
  {
    var arguments := e.metadata.arguments;
    if |arguments| == 0 {
      return Ok("");
    }
    var lines: seq<string> := [];
    var idx := 0;
    while idx < |arguments|
      invariant 0 <= idx <= |arguments|
      invariant ArgumentLinesUpTo(e, ctx, idx) == Ok(lines)
    {
      var arg := arguments[idx];
      if idx >= |e.fnArgs| {
        ArgumentLinesErrPersists(e, ctx, idx + 1);
        return Err(MissingFnArg(idx));
      }
      var pattern := e.fnArgs[idx].pattern;
      var defaultValue := e.fnArgs[idx].usedTy.defaultValue;
      var found := FindNeighbor(ctx.neighbors, arg.typeId, arg.typeName);
      if found.None? {
        ArgumentLinesErrPersists(e, ctx, idx + 1);
        return Err(ArgTypeNotInGraph(idx));
      }
      var needsComma := idx < |arguments| - 1;
      var prefix := ctx.neighbors[found.value].schemaPrefix;
      match arg.argumentSql {
        case Ok(Mapped(sql)) =>
          var line := ArgumentLine(pattern, arg.variadic, prefix, sql, defaultValue, needsComma, arg.typeName);
          assert ArgumentEntry(e, ctx, idx) == Ok(Some(line));
          lines := lines + [line];
        case Ok(Composite(brackets)) =>
          var composite := e.fnArgs[idx].usedTy.compositeType;
          if composite.None? {
            ArgumentLinesErrPersists(e, ctx, idx + 1);
            return Err(MissingCompositeName);
          }
          var sql := CompositeSql(composite.value, brackets);
          var line := ArgumentLine(pattern, arg.variadic, prefix, sql, defaultValue, needsComma, arg.typeName);
          assert ArgumentEntry(e, ctx, idx) == Ok(Some(line));
          lines := lines + [line];
        case Ok(Skip) =>
          assert ArgumentEntry(e, ctx, idx) == Ok(None);
          assert lines + [] == lines;
        case Err(m) =>
          ArgumentLinesErrPersists(e, ctx, idx + 1);
          return Err(ArgumentMapping(idx, m));
      }
      idx := idx + 1;
    }
    r := Ok("\n" + Join(lines, "\n") + "\n");
  }

  /** The argument list succeeds exactly when every argument does; it then has at most one line
      per argument, and exactly one per argument, in order, when no argument is skipped. */
  lemma {:induction false} ArgumentLinesFacts(e: PgExternEntity, ctx: Context, n: nat)
    requires n <= |e.metadata.arguments|
    ensures ArgumentLinesUpTo(e, ctx, n).Ok? <==> forall i :: 0 <= i < n ==> ArgumentEntry(e, ctx, i).Ok?
    ensures ArgumentLinesUpTo(e, ctx, n).Ok? ==> |ArgumentLinesUpTo(e, ctx, n).value| <= n
    ensures ArgumentLinesUpTo(e, ctx, n).Ok? && (forall i :: 0 <= i < n ==> ArgumentEntry(e, ctx, i).value.Some?) ==>
      |ArgumentLinesUpTo(e, ctx, n).value| == n
      && forall i :: 0 <= i < n ==> ArgumentEntry(e, ctx, i) == Ok(Some(ArgumentLinesUpTo(e, ctx, n).value[i]))
    decreases n
  {
    if n > 0 {
      ArgumentLinesFacts(e, ctx, n - 1);
    }
  }

  /** No arguments render as nothing; otherwise the list renders when every argument does, and
      with no argument skipped it is each argument's line, in order, joined by newlines between a
      leading and a trailing newline. */
  lemma ArgumentsTextFacts(e: PgExternEntity, ctx: Context)
    ensures |e.metadata.arguments| == 0 ==> ArgumentsText(e, ctx) == Ok("")
    ensures ArgumentsText(e, ctx).Ok? <==>
      forall i :: 0 <= i < |e.metadata.arguments| ==> ArgumentEntry(e, ctx, i).Ok?
    ensures var n := |e.metadata.arguments|;
      n > 0 && (forall i :: 0 <= i < n ==> ArgumentEntry(e, ctx, i).Ok? && ArgumentEntry(e, ctx, i).value.Some?) ==>
        ArgumentsText(e, ctx) == Ok("\n" + Join(seq(n, i requires 0 <= i < n => ArgumentEntry(e, ctx, i).value.value), "\n") + "\n")
  {
    var n := |e.metadata.arguments|;
    if n > 0 {
      ArgumentLinesFacts(e, ctx, n);
      if forall i :: 0 <= i < n ==> ArgumentEntry(e, ctx, i).Ok? && ArgumentEntry(e, ctx, i).value.Some? {
        var lines := ArgumentLinesUpTo(e, ctx, n).value;
        assert lines == seq(n, i requires 0 <= i < n => ArgumentEntry(e, ctx, i).value.value);
      }
    }
  }

  /** What one argument renders: an argument without a graph neighbour is an error, a `Skip`
      argument renders nothing, a composite renders its declared name (with `[]` exactly when
      the mapping asks for brackets) or fails without one, and the comma follows exactly the
      arguments before the last by position in the metadata. */
  lemma ArgumentEntryFacts(e: PgExternEntity, ctx: Context, i: nat)
    requires i < |e.metadata.arguments| && i < |e.fnArgs|
    ensures var arg := e.metadata.arguments[i];
      && (ArgumentEntry(e, ctx, i) == Err(ArgTypeNotInGraph(i)) <==>
            forall j :: 0 <= j < |ctx.neighbors| ==> !Matches(ctx.neighbors[j].node, arg.typeId, arg.typeName))
      && (ArgumentEntry(e, ctx, i) == Ok(None) <==>
            FindNeighbor(ctx.neighbors, arg.typeId, arg.typeName).Some? && arg.argumentSql == Ok(Skip))
    ensures var arg := e.metadata.arguments[i];
      var fnArg := e.fnArgs[i];
      var found := FindNeighbor(ctx.neighbors, arg.typeId, arg.typeName);
      found.Some? && arg.argumentSql.Ok? && arg.argumentSql.value.Composite? ==>
        if fnArg.usedTy.compositeType.None? then ArgumentEntry(e, ctx, i) == Err(MissingCompositeName)
        else ArgumentEntry(e, ctx, i) == Ok(Some(ArgumentLine(
          fnArg.pattern, arg.variadic, ctx.neighbors[found.value].schemaPrefix,
          fnArg.usedTy.compositeType.value + (if arg.argumentSql.value.requiresArrayBrackets then "[]" else ""),
          fnArg.usedTy.defaultValue, i < |e.metadata.arguments| - 1, arg.typeName)))
    ensures var arg := e.metadata.arguments[i];
      var fnArg := e.fnArgs[i];
      var found := FindNeighbor(ctx.neighbors, arg.typeId, arg.typeName);
      found.Some? && arg.argumentSql.Ok? && arg.argumentSql.value.Mapped? ==>
        ArgumentEntry(e, ctx, i) == Ok(Some(ArgumentLine(
          fnArg.pattern, arg.variadic, ctx.neighbors[found.value].schemaPrefix, arg.argumentSql.value.sql,
          fnArg.usedTy.defaultValue, i < |e.metadata.arguments| - 1, arg.typeName)))
    ensures var arg := e.metadata.arguments[i];
      FindNeighbor(ctx.neighbors, arg.typeId, arg.typeName).Some? && arg.argumentSql.Err? ==>
        ArgumentEntry(e, ctx, i) == Err(ArgumentMapping(i, arg.argumentSql.error))
  {
    var ct := e.fnArgs[i].usedTy.compositeType;
    if ct.Some? {
      assert ct.value + "" == ct.value;
    }
  }

  /** A function `f(a: i32, fcinfo: pg_sys::FunctionCallInfo)` whose second argument SQL never sees. */
  function SkipExample(name: string): PgExternEntity
  {
    PgExternEntity(
      name, name, "ext", "ext::" + name,
      FunctionMetadata("ext::" + name,
        [ArgumentMetadata(1, "i32", false, false, Ok(Mapped("integer"))),
         ArgumentMetadata(2, "pg_sys::FunctionCallInfo", false, false, Ok(Skip))],
        None),
      [ArgumentEntity("a", UsedType(None, None)), ArgumentEntity("fcinfo", UsedType(None, None))],
      FnNone, None, "src/lib.rs", 1, [], None, None)
  }

  function SkipExampleContext(): Context
  {
    Context("", [Neighbor(BuiltinNode("i32"), ""), Neighbor(BuiltinNode("pg_sys::FunctionCallInfo"), "")],
            0, "$libdir/ext", _ => "")
  }

  /** The two arguments of the example render a line with a comma and nothing. */
  lemma SkipExampleEntries(name: string)
    ensures ArgumentEntry(SkipExample(name), SkipExampleContext(), 0)
            == Ok(Some("\t\"a\" integer, /* i32 */"))
    ensures ArgumentEntry(SkipExample(name), SkipExampleContext(), 1) == Ok(None)
  {
    var ctx := SkipExampleContext();
    assert ArgumentLine("a", false, "", "integer", None, true, "i32") == "\t\"a\" integer, /* i32 */";
    assert FindNeighbor(ctx.neighbors, 1, "i32") == Some(0);
    assert FindFrom(ctx.neighbors, 2, "pg_sys::FunctionCallInfo", 1) == Some(1);
  }

  lemma SkipExampleLines(name: string)
    ensures ArgumentLinesUpTo(SkipExample(name), SkipExampleContext(), 2) == Ok(["\t\"a\" integer, /* i32 */"])
  {
    var e := SkipExample(name);
    var ctx := SkipExampleContext();
    var line := "\t\"a\" integer, /* i32 */";
    SkipExampleEntries(name);
    assert ArgumentLinesUpTo(e, ctx, 0) == Ok([]);
    assert ArgumentLinesUpTo(e, ctx, 1) == Ok([] + [line]);
    assert !ArgumentLinesUpTo(e, ctx, 1).IsFailure() && ArgumentLinesUpTo(e, ctx, 1).Extract() == [line];
    assert !ArgumentEntry(e, ctx, 1).IsFailure() && ArgumentEntry(e, ctx, 1).Extract() == None;
    assert [line] + [] == [line];
  }

  /** Commas are placed by position among all arguments, skipped ones included: a mapped argument
      followed only by a skipped one keeps its comma, which then dangles before `)`. */
  lemma DanglingCommaAfterSkip(name: string)
    ensures ArgumentsText(SkipExample(name), SkipExampleContext()) == Ok("\n\t\"a\" integer, /* i32 */\n")
  {
    var line := "\t\"a\" integer, /* i32 */";
    SkipExampleLines(name);
    assert Join([line], "\n") == line;
    assert |SkipExample(name).metadata.arguments| == 2;
    assert "\n" + line + "\n" == "\n\t\"a\" integer, /* i32 */\n";
  }

  // ---------------------------------------------------------------------------
  // Return clause

  /** The `(variant_prefix, sql_type)` of the return clause. A composite return is checked against
      the shape captured from the declaration; a mapped one is not. */
  function ReturnShapeSql(fnReturn: ReturnEntity, returnSql: Result<ReturnVariant, string>)
    : Result<(string, string), RenderError>
  {
    match returnSql
    case Err(m) => Err(ReturnMapping(m))
    case Ok(Plain(Mapped(sql))) => Ok(("", sql))
    case Ok(Plain(Composite(brackets))) =>
      (match fnReturn
       case FnType(ct) => if ct.Some? then Ok(("", CompositeSql(ct.value, brackets))) else Err(MissingCompositeName)
       case _ => Err(ReturnShapeMismatch))
    case Ok(Plain(Skip)) => Err(SkippedReturn)
    case Ok(SetOfVariant(Mapped(sql))) => Ok(("SETOF ", sql))
    case Ok(SetOfVariant(Composite(brackets))) =>
      (match fnReturn
       case FnSetOf(ct) => if ct.Some? then Ok(("SETOF ", CompositeSql(ct.value, brackets))) else Err(MissingCompositeName)
       case _ => Err(ReturnShapeMismatch))
    case Ok(SetOfVariant(Skip)) => Err(SkippedSetOfReturn)
    case Ok(Table(_)) => Ok(("TABLE ", "TODO"))
  }

  /** The `{returns}` of `CREATE FUNCTION`. */
  function ReturnsText(e: PgExternEntity, ctx: Context): Result<string, RenderError>
  {
    match e.metadata.retval
    case None => Ok("RETURNS void")
    case Some(retval) =>
      var found := FindNeighbor(ctx.neighbors, retval.typeId, retval.typeName);
      if found.None? then Err(ReturnTypeNotInGraph)
      else
        var shape :- ReturnShapeSql(e.fnReturn, retval.returnSql);
        Ok("RETURNS " + shape.0 + ctx.neighbors[found.value].schemaPrefix + shape.1 + " /* " + retval.typeName + " */")
  }

  /** No return value renders `RETURNS void`; a return type without a graph neighbour is an error;
      a set-returning one is prefixed `SETOF `; a skipped one is an error; a table renders the
      placeholder `TABLE TODO`. */
  lemma ReturnsClauseFacts(e: PgExternEntity, ctx: Context)
    ensures e.metadata.retval.None? ==> ReturnsText(e, ctx) == Ok("RETURNS void")
    ensures e.metadata.retval.Some? ==>
      var rv := e.metadata.retval.value;
      var found := FindNeighbor(ctx.neighbors, rv.typeId, rv.typeName);
      && (found.None? <==> ReturnsText(e, ctx) == Err(ReturnTypeNotInGraph))
      && (found.Some? && rv.returnSql.Ok? && rv.returnSql.value.SetOfVariant? && ReturnsText(e, ctx).Ok? ==>
            ReturnsText(e, ctx).value[..14] == "RETURNS SETOF ")
      && (found.Some? && rv.returnSql.Ok? && !rv.returnSql.value.Table? && rv.returnSql.value.variant.Skip? ==>
            ReturnsText(e, ctx).Err?)
      && (found.Some? && rv.returnSql.Ok? && rv.returnSql.value.Table? ==>
            ReturnsText(e, ctx) == Ok("RETURNS TABLE " + ctx.neighbors[found.value].schemaPrefix + "TODO /* " + rv.typeName + " */"))
  {
    if e.metadata.retval.Some? {
      var rv := e.metadata.retval.value;
      var found := FindNeighbor(ctx.neighbors, rv.typeId, rv.typeName);
      if found.Some? && rv.returnSql.Ok? {
        var prefix := ctx.neighbors[found.value].schemaPrefix;
        var tail := prefix + "TODO" + " /* " + rv.typeName + " */";
        if rv.returnSql.value.Table? {
          assert "RETURNS " + "TABLE " + prefix + "TODO" + " /* " + rv.typeName + " */"
              == "RETURNS TABLE " + prefix + "TODO /* " + rv.typeName + " */";
        }
        if rv.returnSql.value.SetOfVariant? && ReturnsText(e, ctx).Ok? {
          var shape := ReturnShapeSql(e.fnReturn, rv.returnSql).value;
          assert shape.0 == "SETOF ";
          var rest := prefix + shape.1 + " /* " + rv.typeName + " */";
          assert ReturnsText(e, ctx).value == "RETURNS SETOF " + rest;
        }
      }
    }
  }

  /** A plain composite return renders only when the declaration captured a plain value with a
      composite name, a set-of composite only when it captured a set with one; every other
      pairing is an error, and `[]` follows the name exactly when the mapping asks for it. */
  lemma CompositeReturnPairing(fnReturn: ReturnEntity, brackets: bool)
    ensures ReturnShapeSql(fnReturn, Ok(Plain(Composite(brackets)))).Ok?
            <==> fnReturn.FnType? && fnReturn.compositeType.Some?
    ensures ReturnShapeSql(fnReturn, Ok(SetOfVariant(Composite(brackets)))).Ok?
            <==> fnReturn.FnSetOf? && fnReturn.compositeType.Some?
    ensures !fnReturn.FnType? ==> ReturnShapeSql(fnReturn, Ok(Plain(Composite(brackets)))) == Err(ReturnShapeMismatch)
    ensures !fnReturn.FnSetOf? ==> ReturnShapeSql(fnReturn, Ok(SetOfVariant(Composite(brackets)))) == Err(ReturnShapeMismatch)
    ensures fnReturn.FnType? && fnReturn.compositeType.Some? ==>
      ReturnShapeSql(fnReturn, Ok(Plain(Composite(brackets))))
        == Ok(("", fnReturn.compositeType.value + if brackets then "[]" else ""))
    ensures fnReturn.FnSetOf? && fnReturn.compositeType.Some? ==>
      ReturnShapeSql(fnReturn, Ok(SetOfVariant(Composite(brackets))))
        == Ok(("SETOF ", fnReturn.compositeType.value + if brackets then "[]" else ""))
  {
    if (fnReturn.FnType? || fnReturn.FnSetOf?) && fnReturn.compositeType.Some? {
      assert fnReturn.compositeType.value + "" == fnReturn.compositeType.value;
    }
  }

  // ---------------------------------------------------------------------------
  // Attribute, search path and requires clauses

  function AttributesText(attrs: seq<ExternArg>, display: ExternArg -> string): string
  {
    if |attrs| == 0 then ""
    else Join(seq(|attrs|, i requires 0 <= i < |attrs| => Upper(display(attrs[i]))), " ") + "\n"
  }

  function SearchPathText(searchPath: Option<seq<string>>): string
  {
    if searchPath.Some? then "SET search_path TO " + Join(searchPath.value, ", ") + "\n" else ""
  }

  /** The attribute line lists every attribute's text upper-cased, separated by spaces and ended
      by a newline, and is empty without attributes; the strict upgrade adds `STRICT`'s text at
      the end of the line and changes nothing before it. */
  lemma AttributesWithStrict(attrs: seq<ExternArg>, args: seq<ArgumentMetadata>, internalType: TypeId, display: ExternArg -> string)
    ensures AttributesText(attrs, display) == "" <==> |attrs| == 0
    ensures forall i :: 0 <= i < |attrs| ==> IsInfix(Upper(display(attrs[i])), AttributesText(attrs, display))
    ensures NeedsStrict(attrs, args, internalType) ==>
      AttributesText(WithStrict(attrs, args, internalType), display)
        == (if |attrs| == 0 then Upper(display(Strict)) + "\n"
            else AttributesText(attrs, display)[..|AttributesText(attrs, display)| - 1] + " " + Upper(display(Strict)) + "\n")
    ensures !NeedsStrict(attrs, args, internalType) ==>
      AttributesText(WithStrict(attrs, args, internalType), display) == AttributesText(attrs, display)
  {
    var shown := seq(|attrs|, i requires 0 <= i < |attrs| => Upper(display(attrs[i])));
    if |attrs| > 0 {
      assert AttributesText(attrs, display) == Join(shown, " ") + "\n";
      forall i | 0 <= i < |attrs|
        ensures IsInfix(Upper(display(attrs[i])), AttributesText(attrs, display))
      {
        JoinHasParts(shown, " ", i);
        InfixExtend(shown[i], Join(shown, " "), "\n");
      }
      if NeedsStrict(attrs, args, internalType) {
        var more := attrs + [Strict];
        assert seq(|more|, i requires 0 <= i < |more| => Upper(display(more[i]))) == shown + [Upper(display(Strict))];
        JoinAppend(shown, Upper(display(Strict)), " ");
        assert AttributesText(attrs, display)[..|AttributesText(attrs, display)| - 1] == Join(shown, " ");
      }
    } else if NeedsStrict(attrs, args, internalType) {
      var more := [Strict];
      assert seq(|more|, i requires 0 <= i < |more| => Upper(display(more[i]))) == [Upper(display(Strict))];
    }
  }

  /** A search path renders as one `SET search_path TO` line naming every schema in order,
      separated by `, `; without one nothing is rendered. */
  lemma SearchPathFacts(searchPath: Option<seq<string>>)
    ensures SearchPathText(searchPath) == "" <==> searchPath.None?
    ensures searchPath.Some? ==>
      SearchPathText(searchPath) == "SET search_path TO " + Join(searchPath.value, ", ") + "\n"
    ensures forall i :: searchPath.Some? && 0 <= i < |searchPath.value| ==>
      IsInfix(searchPath.value[i], SearchPathText(searchPath))
  {
    if searchPath.Some? {
      var p := searchPath.value;
      forall i | 0 <= i < |p|
        ensures IsInfix(p[i], SearchPathText(searchPath))
      {
        JoinHasParts(p, ", ", i);
        var q :| InfixAt(p[i], Join(p, ", "), q);
        var pre := "SET search_path TO ";
        assert SearchPathText(searchPath) == pre + (Join(p, ", ") + "\n");
        assert (pre + (Join(p, ", ") + "\n"))[|pre| + q..|pre| + q + |p[i]|] == Join(p, ", ")[q..q + |p[i]|];
        assert InfixAt(p[i], SearchPathText(searchPath), |pre| + q);
      }
    }
  }

  /** The items of every `Requires` attribute, flattened in order. */
  function RequiredItems(attrs: seq<ExternArg>): seq<string>
  {
    if attrs == [] then []
    else (if attrs[0].Requires? then attrs[0].items else []) + RequiredItems(attrs[1..])
  }

  function RequiresText(attrs: seq<ExternArg>): string
  {
    var items := RequiredItems(attrs);
    if |items| == 0 then ""
    else "-- requires:\n" + Join(seq(|items|, i requires 0 <= i < |items| => "--   " + items[i]), "\n") + "\n"
  }

  /** Appending `STRICT` does not change what the function requires. */
  lemma {:induction false} RequiredItemsAppend(attrs: seq<ExternArg>, extra: ExternArg)
    requires !extra.Requires?
    ensures RequiredItems(attrs + [extra]) == RequiredItems(attrs)
    decreases |attrs|
  {
    if attrs == [] {
      assert RequiredItems([extra]) == [] + RequiredItems([]);
    } else {
      assert (attrs + [extra])[1..] == attrs[1..] + [extra];
      RequiredItemsAppend(attrs[1..], extra);
    }
  }

  function SchemaText(e: PgExternEntity, ctx: Context): string
  {
    if e.schema.Some? then e.schema.value + "." else ctx.selfPrefix
  }

  /** The two comment lines that open each statement: `-- <file>:<line>` and `-- <module>::<name>`. */
  function SourceComment(e: PgExternEntity): string
  {
    "\n-- " + e.file + ":" + NatToDecimal(e.line) + "\n-- " + e.modulePath + "::" + e.name + "\n"
  }

  function FunctionStatementHead(e: PgExternEntity, ctx: Context): string
  {
    "CREATE FUNCTION " + SchemaText(e, ctx) + "\"" + e.name + "\"("
  }

  function FunctionStatementTail(e: PgExternEntity, ctx: Context, attrs: seq<ExternArg>, args: string, returnsClause: string): string
  {
    args + ") " + returnsClause + "\n"
    + AttributesText(attrs, ctx.display) + SearchPathText(e.searchPath)
    + "LANGUAGE c /* Rust */\n" + "AS '" + ctx.modulePathname + "', '" + e.name + "_wrapper';"
  }

  /** `fn_sql` */
  function FunctionStatement(e: PgExternEntity, ctx: Context, attrs: seq<ExternArg>, args: string, returnsClause: string): string
  {
    FunctionStatementHead(e, ctx) + FunctionStatementTail(e, ctx, attrs, args, returnsClause)
  }

  // ---------------------------------------------------------------------------
  // Operator statement

  datatype OptionalClause =
    | Commutator(op: string) | Negator(op: string) | Restrict(proc: string) | JoinClause(proc: string)
    | Hashes | Merges

  /** The fixed position of each optional clause. */
  function ClauseRank(c: OptionalClause): (k: nat)
    ensures k < 6
  {
    match c
    case Commutator(_) => 0
    case Negator(_) => 1
    case Restrict(_) => 2
    case JoinClause(_) => 3
    case Hashes => 4
    case Merges => 5
  }

  function ClauseText(c: OptionalClause): string
  {
    match c
    case Commutator(x) => "\tCOMMUTATOR = " + x
    case Negator(x) => "\tNEGATOR = " + x
    case Restrict(x) => "\tRESTRICT = " + x
    case JoinClause(x) => "\tJOIN = " + x
    case Hashes => "\tHASHES"
    case Merges => "\tMERGES"
  }

  /** The operator's metadata asks for clause `c`. */
  predicate Requested(op: OperatorEntity, c: OptionalClause)
  {
    match c
    case Commutator(x) => op.commutator == Some(x)
    case Negator(x) => op.negator == Some(x)
    case Restrict(x) => op.restrict == Some(x)
    case JoinClause(x) => op.join == Some(x)
    case Hashes => op.hashes
    case Merges => op.merges
  }

  predicate AnyOptional(op: OperatorEntity)
  {
    op.commutator.Some? || op.negator.Some? || op.restrict.Some? || op.join.Some? || op.hashes || op.merges
  }

  /** Strictly increasing rank, so also no clause twice. */
  predicate RankOrdered(r: seq<OptionalClause>)
  {
    forall i, j :: 0 <= i < j < |r| ==> ClauseRank(r[i]) < ClauseRank(r[j])
  }

  /** The clause of rank `k`, when the operator asks for it. */
  function Pick(op: OperatorEntity, k: nat): (c: Option<OptionalClause>)
    ensures c.Some? ==> ClauseRank(c.value) == k && Requested(op, c.value)
    ensures forall x :: Requested(op, x) && ClauseRank(x) == k ==> c == Some(x)
  {
    if k == 0 then (if op.commutator.Some? then Some(Commutator(op.commutator.value)) else None)
    else if k == 1 then (if op.negator.Some? then Some(Negator(op.negator.value)) else None)
    else if k == 2 then (if op.restrict.Some? then Some(Restrict(op.restrict.value)) else None)
    else if k == 3 then (if op.join.Some? then Some(JoinClause(op.join.value)) else None)
    else if k == 4 then (if op.hashes then Some(Hashes) else None)
    else if k == 5 then (if op.merges then Some(Merges) else None)
    else None
  }

  /** The `optionals` vector after the pushes for ranks below `n`. */
  function PickedBelow(op: OperatorEntity, n: nat): seq<OptionalClause>
  {
    if n == 0 then []
    else
      var prev := PickedBelow(op, n - 1);
      var c := Pick(op, n - 1);
      if c.Some? then prev + [c.value] else prev
  }

  /** The clauses picked below `n` are exactly the requested ones of rank below `n`, in rank order. */
  lemma {:induction false} PickedBelowFacts(op: OperatorEntity, n: nat)
    ensures forall x :: x in PickedBelow(op, n) <==> Requested(op, x) && ClauseRank(x) < n
    ensures RankOrdered(PickedBelow(op, n))
  {
    if n > 0 {
      PickedBelowFacts(op, n - 1);
      var prev := PickedBelow(op, n - 1);
      var c := Pick(op, n - 1);
      if c.Some? {
        var r := prev + [c.value];
        assert r == PickedBelow(op, n);
        assert ClauseRank(c.value) == n - 1;
        forall i, j | 0 <= i < j < |r| ensures ClauseRank(r[i]) < ClauseRank(r[j]) {
          if j < |prev| {
            assert r[i] == prev[i] && r[j] == prev[j];
          } else {
            assert r[i] == prev[i] && prev[i] in prev;
            assert ClauseRank(prev[i]) < n - 1;
            assert r[j] == c.value;
          }
        }
      } else {
        assert PickedBelow(op, n) == prev;
      }
    }
  }

  /** The `optionals` vector. */
  function OptionalClauses(op: OperatorEntity): seq<OptionalClause>
  {
    PickedBelow(op, 6)
  }

  /** The clauses are exactly the requested ones, each once, in the fixed order COMMUTATOR,
      NEGATOR, RESTRICT, JOIN, HASHES, MERGES; there are none exactly when nothing is requested. */
  lemma OptionalClausesFacts(op: OperatorEntity)
    ensures forall c :: c in OptionalClauses(op) <==> Requested(op, c)
    ensures RankOrdered(OptionalClauses(op))
    ensures |OptionalClauses(op)| == 0 <==> !AnyOptional(op)
  {
    PickedBelowFacts(op, 6);
    var r := OptionalClauses(op);
    assert r == PickedBelow(op, 6);
    if op.commutator.Some? { assert Commutator(op.commutator.value) in r; }
    else if op.negator.Some? { assert Negator(op.negator.value) in r; }
    else if op.restrict.Some? { assert Restrict(op.restrict.value) in r; }
    else if op.join.Some? { assert JoinClause(op.join.value) in r; }
    else if op.hashes { assert Hashes in r; }
    else if op.merges { assert Merges in r; }
    if |r| > 0 {
      assert r[0] in r;
    }
  }

  function ClauseLines(clauses: seq<OptionalClause>): seq<string>
  {
    seq(|clauses|, i requires 0 <= i < |clauses| => ClauseText(clauses[i]))
  }

  lemma ClauseLinesPush(clauses: seq<OptionalClause>, c: OptionalClause)
    ensures ClauseLines(clauses + [c]) == ClauseLines(clauses) + [ClauseText(c)]
  {
  }

  /** One rank of `optionals`: push the line of `Pick(op, k)` when there is one. */
  method PushClause(op: OperatorEntity, k: nat, optionals: seq<string>) returns (out: seq<string>)
    requires optionals == ClauseLines(PickedBelow(op, k))
    ensures out == ClauseLines(PickedBelow(op, k + 1))
  {
    var c := Pick(op, k);
    out := optionals;
    if c.Some? {
      ClauseLinesPush(PickedBelow(op, k), c.value);
      out := out + [ClauseText(c.value)];
    }
  }

  /** The successive pushes onto `optionals` in `to_sql`: COMMUTATOR, NEGATOR, RESTRICT, JOIN,
      HASHES, MERGES. */
  method CollectOptionals(op: OperatorEntity) returns (optionals: seq<string>)
    ensures optionals == ClauseLines(OptionalClauses(op))
  {
    optionals := PushClause(op, 0, []);
    optionals := PushClause(op, 1, optionals);
    optionals := PushClause(op, 2, optionals);
    optionals := PushClause(op, 3, optionals);
    optionals := PushClause(op, 4, optionals);
    optionals := PushClause(op, 5, optionals);
  }

  function OptionalsText(op: OperatorEntity): string
  {
    var lines := ClauseLines(OptionalClauses(op));
    if |lines| == 0 then "" else Join(lines, ",\n") + "\n"
  }

  /** `maybe_comma` after RIGHTARG. */
  function RightArgComma(op: OperatorEntity): (r: string)
    ensures r == "," <==> AnyOptional(op)
    ensures r == "" <==> !AnyOptional(op)
  {
    OptionalClausesFacts(op);
    if |OptionalClauses(op)| >= 1 then "," else ""
  }

  /** The SQL type of an operator operand; a composite takes its name from `fnArgs[nameIndex]`. */
  function OperandSql(arg: ArgumentMetadata, fnArgs: seq<ArgumentEntity>, nameIndex: nat): Result<string, RenderError>
  {
    match arg.argumentSql
    case Err(m) => Err(OperatorArgMapping(m))
    case Ok(Mapped(sql)) => Ok(sql)
    case Ok(Composite(brackets)) =>
      if nameIndex >= |fnArgs| then Err(MissingFnArg(nameIndex))
      else if fnArgs[nameIndex].usedTy.compositeType.None? then Err(MissingCompositeName)
      else Ok(CompositeSql(fnArgs[nameIndex].usedTy.compositeType.value, brackets))
    case Ok(Skip) => Err(OperatorSkippedArg)
  }

  /** RIGHTARG's type as the source computes it: with array brackets the name comes from
      `fn_args[1]`, without them from `fn_args[0]`, the left operand's. */
  function RightOperandSqlAsWritten(arg: ArgumentMetadata, fnArgs: seq<ArgumentEntity>): (r: Result<string, RenderError>)
    ensures arg.argumentSql == Ok(Composite(false)) ==>
      (r.Ok? <==> |fnArgs| > 0 && fnArgs[0].usedTy.compositeType.Some?)
      && (r.Ok? ==> r.value == fnArgs[0].usedTy.compositeType.value)
    ensures arg.argumentSql != Ok(Composite(false)) ==> r == RightOperandSql(arg, fnArgs)
  {
    var nameIndex := if arg.argumentSql == Ok(Composite(false)) then 0 else 1;
    OperandSql(arg, fnArgs, nameIndex)
  }

  /** RIGHTARG's type as intended: always named by `fn_args[1]`. */
  function RightOperandSql(arg: ArgumentMetadata, fnArgs: seq<ArgumentEntity>): (r: Result<string, RenderError>)
    ensures arg.argumentSql.Ok? && arg.argumentSql.value.Composite? ==>
      (r.Ok? <==> |fnArgs| > 1 && fnArgs[1].usedTy.compositeType.Some?)
      && (r.Ok? ==> r.value == CompositeSql(fnArgs[1].usedTy.compositeType.value, arg.argumentSql.value.requiresArrayBrackets))
  {
    OperandSql(arg, fnArgs, 1)
  }

  /** The source's RIGHTARG differs from the intended one: for a non-array composite right
      operand it prints the left operand's composite name, and fails when only the right operand
      declares one. */
  lemma RightOperandReadsLeftName()
    ensures var fnArgs := [ArgumentEntity("left", UsedType(None, Some("dog"))),
                           ArgumentEntity("right", UsedType(None, Some("cat")))];
      var arg := ArgumentMetadata(7, "pgx::PgHeapTuple", false, false, Ok(Composite(false)));
      RightOperandSqlAsWritten(arg, fnArgs) == Ok("dog") && RightOperandSql(arg, fnArgs) == Ok("cat")
    ensures var fnArgs := [ArgumentEntity("left", UsedType(None, None)),
                           ArgumentEntity("right", UsedType(None, Some("cat")))];
      var arg := ArgumentMetadata(7, "pgx::PgHeapTuple", false, false, Ok(Composite(false)));
      RightOperandSqlAsWritten(arg, fnArgs) == Err(MissingCompositeName) && RightOperandSql(arg, fnArgs) == Ok("cat")
  {
  }

  /** RIGHTARG's type as the source computes it, or, with `corrected`, as intended. */
  function RightOperand(arg: ArgumentMetadata, fnArgs: seq<ArgumentEntity>, corrected: bool): Result<string, RenderError>
  {
    if corrected then RightOperandSql(arg, fnArgs) else RightOperandSqlAsWritten(arg, fnArgs)
  }

  /** The `CREATE OPERATOR` statement; `to_sql` renders it with `corrected` false, and with
      `corrected` true it is the statement with the intended RIGHTARG. */
  function OperatorText(e: PgExternEntity, ctx: Context, corrected: bool): Result<string, RenderError>
    requires e.operator.Some?
  {
    var op := e.operator.value;
    var args := e.metadata.arguments;
    if |args| < 1 then Err(OperatorArgMissing(0))
    else
      var left := args[0];
      var leftFound := FindNeighbor(ctx.neighbors, left.typeId, left.typeName);
      if leftFound.None? then Err(OperatorArgNotInGraph(0))
      else
        var leftSql :- OperandSql(left, e.fnArgs, 0);
        if |args| < 2 then Err(OperatorArgMissing(1))
        else
          var right := args[1];
          var rightFound := FindNeighbor(ctx.neighbors, right.typeId, right.typeName);
          if rightFound.None? then Err(OperatorArgNotInGraph(1))
          else
            var rightSql :- RightOperand(right, e.fnArgs, corrected);
            if op.opname.None? then Err(OperatorNameMissing)
            else Ok("\n" + SourceComment(e) + "CREATE OPERATOR " + op.opname.value + " (\n"
                    + "\tPROCEDURE=\"" + e.name + "\",\n"
                    + "\tLEFTARG=" + ctx.neighbors[leftFound.value].schemaPrefix + leftSql
                    + ", /* " + left.typeName + " */\n"
                    + "\tRIGHTARG=" + ctx.neighbors[rightFound.value].schemaPrefix + rightSql
                    + RightArgComma(op) + " /* " + right.typeName + " */\n"
                    + OptionalsText(op) + ");")
  }

  /** The operator statement renders exactly when arguments 0 and 1 exist, resolve in the graph
      and map to SQL (a skipped one fails), and the operator has a name; as written, a
      non-array composite right operand maps only when `fn_args[0]` declares a name. */
  lemma OperatorTextOk(e: PgExternEntity, ctx: Context)
    requires e.operator.Some?
    ensures var args := e.metadata.arguments;
      OperatorText(e, ctx, false).Ok? <==>
        && |args| >= 2
        && FindNeighbor(ctx.neighbors, args[0].typeId, args[0].typeName).Some?
        && FindNeighbor(ctx.neighbors, args[1].typeId, args[1].typeName).Some?
        && OperandSql(args[0], e.fnArgs, 0).Ok? && RightOperandSqlAsWritten(args[1], e.fnArgs).Ok?
        && e.operator.value.opname.Some?
    ensures var args := e.metadata.arguments;
      OperatorText(e, ctx, true).Ok? <==>
        && |args| >= 2
        && FindNeighbor(ctx.neighbors, args[0].typeId, args[0].typeName).Some?
        && FindNeighbor(ctx.neighbors, args[1].typeId, args[1].typeName).Some?
        && OperandSql(args[0], e.fnArgs, 0).Ok? && RightOperandSql(args[1], e.fnArgs).Ok?
        && e.operator.value.opname.Some?
    ensures forall a: ArgumentMetadata, fnArgs, k :: a.argumentSql == Ok(Skip) ==> OperandSql(a, fnArgs, k) == Err(OperatorSkippedArg)
  {
  }

  /** The correction changes the statement only for a non-array composite right operand. */
  lemma CorrectionOnlyChangesCompositeRight(e: PgExternEntity, ctx: Context)
    requires e.operator.Some?
    requires |e.metadata.arguments| < 2 || e.metadata.arguments[1].argumentSql != Ok(Composite(false))
    ensures OperatorText(e, ctx, false) == OperatorText(e, ctx, true)
  {
  }

  /** Only arguments 0 and 1 matter to the operator statement: more than two arguments are
      accepted and ignored. */
  lemma OperatorIgnoresExtraArguments(e: PgExternEntity, ctx: Context)
    requires e.operator.Some? && |e.metadata.arguments| >= 2
    ensures var e2 := e.(metadata := e.metadata.(arguments := e.metadata.arguments[..2]));
      OperatorText(e2, ctx, false) == OperatorText(e, ctx, false)
  {
  }

  /** An operator with a commutator and nothing else renders exactly one COMMUTATOR clause. */
  lemma CommutatorOnly(opname: string, commutator: string)
    ensures var op := OperatorEntity(Some(opname), Some(commutator), None, None, None, false, false);
      OptionalClauses(op) == [Commutator(commutator)]
      && OptionalsText(op) == "\tCOMMUTATOR = " + commutator + "\n"
      && RightArgComma(op) == ","
  {
    var op := OperatorEntity(Some(opname), Some(commutator), None, None, None, false, false);
    assert PickedBelow(op, 1) == [Commutator(commutator)];
    assert PickedBelow(op, 2) == PickedBelow(op, 1);
    assert PickedBelow(op, 3) == PickedBelow(op, 2);
    assert PickedBelow(op, 4) == PickedBelow(op, 3);
    assert PickedBelow(op, 5) == PickedBelow(op, 4);
    assert PickedBelow(op, 6) == PickedBelow(op, 5);
  }

  // ---------------------------------------------------------------------------
  // The whole statement

  /** `to_sql` as a function of the entity and the graph. */
  function Render(e: PgExternEntity, ctx: Context): Result<string, RenderError>
  {
    var attrs := WithStrict(e.externAttrs, e.metadata.arguments, ctx.internalType);
    var args :- ArgumentsText(e, ctx);
    var returnsClause :- ReturnsText(e, ctx);
    var extSql := SourceComment(e) + RequiresText(e.externAttrs) + FunctionStatement(e, ctx, attrs, args, returnsClause);
    if e.operator.None? then Ok(extSql)
    else
      var operatorSql :- OperatorText(e, ctx, false);
      Ok(extSql + operatorSql)
  }

  /** `PgExternEntity::to_sql` */
  method ToSql(e: PgExternEntity, ctx: Context) returns (r: Result<string, RenderError>)
    ensures r == Render(e, ctx)
  {
    var attrs := UpgradeStrict(e.externAttrs, e.metadata.arguments, ctx.internalType);
    var args := RenderArguments(e, ctx);
    if args.Err? {
      return Err(args.error);
    }
    var returnsClause := ReturnsText(e, ctx);
    if returnsClause.Err? {
      return Err(returnsClause.error);
    }
    var extSql := SourceComment(e) + RequiresText(e.externAttrs)
      + FunctionStatement(e, ctx, attrs, args.value, returnsClause.value);
    if e.operator.None? {
      return Ok(extSql);
    }
    var operatorSql := OperatorText(e, ctx, false);
    if operatorSql.Err? {
      return Err(operatorSql.error);
    }
    r := Ok(extSql + operatorSql.value);
  }

  /** A rendered function never leaves a type reference unresolved: every argument and the return
      type found a graph neighbour, and an operator's two operands resolved and mapped. */
  lemma RenderResolvesEveryType(e: PgExternEntity, ctx: Context)
    requires Render(e, ctx).Ok?
    ensures forall i :: 0 <= i < |e.metadata.arguments| ==>
      i < |e.fnArgs|
      && FindNeighbor(ctx.neighbors, e.metadata.arguments[i].typeId, e.metadata.arguments[i].typeName).Some?
    ensures e.metadata.retval.Some? ==>
      FindNeighbor(ctx.neighbors, e.metadata.retval.value.typeId, e.metadata.retval.value.typeName).Some?
    ensures e.operator.Some? ==> |e.metadata.arguments| >= 2 && e.operator.value.opname.Some?
  {
    var n := |e.metadata.arguments|;
    if n > 0 {
      ArgumentLinesFacts(e, ctx, n);
      forall i | 0 <= i < n
        ensures i < |e.fnArgs|
        ensures FindNeighbor(ctx.neighbors, e.metadata.arguments[i].typeId, e.metadata.arguments[i].typeName).Some?
      {
        assert ArgumentEntry(e, ctx, i).Ok?;
      }
    }
    if e.operator.Some? {
      OperatorTextOk(e, ctx);
    }
  }

  /** The statement names the function as `<schema>."<name>"`: an explicit schema renders as
      `<schema>.` and overrides the prefix the graph gives the function. */
  lemma RenderedSchema(e: PgExternEntity, ctx: Context)
    requires Render(e, ctx).Ok?
    ensures e.schema.Some? ==>
      IsInfix("CREATE FUNCTION " + e.schema.value + ".\"" + e.name + "\"(", Render(e, ctx).value)
    ensures e.schema.None? ==>
      IsInfix("CREATE FUNCTION " + ctx.selfPrefix + "\"" + e.name + "\"(", Render(e, ctx).value)
  {
    var pre := SourceComment(e) + RequiresText(e.externAttrs);
    var head := FunctionStatementHead(e, ctx);
    var attrs := WithStrict(e.externAttrs, e.metadata.arguments, ctx.internalType);
    var args := ArgumentsText(e, ctx).value;
    var returnsClause := ReturnsText(e, ctx).value;
    var tail := FunctionStatementTail(e, ctx, attrs, args, returnsClause);
    var extSql := pre + FunctionStatement(e, ctx, attrs, args, returnsClause);
    assert extSql == pre + (head + tail);
    InfixOfConcat(pre, head, tail);
    if e.operator.Some? {
      InfixExtend(head, extSql, OperatorText(e, ctx, false).value);
      assert Render(e, ctx).value == extSql + OperatorText(e, ctx, false).value;
    } else {
      assert Render(e, ctx).value == extSql;
    }
    if e.schema.Some? {
      assert head == "CREATE FUNCTION " + e.schema.value + ".\"" + e.name + "\"(";
    }
  }
}
