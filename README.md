# pgx schema compiler core, modelled in Dafny

pgx turns `#[pg_extern]` functions, `#[pg_trigger]` functions and operators written in Rust into
the SQL that registers them with PostgreSQL. This project models three parts of its schema
generator and proves what they promise:

- **The return-shape classifier** (`Returning::try_from` and its helpers). It sorts a declared
  Rust return type into `None`, `Type`, `SetOf`, `Iterated` or `Trigger`. Module
  `ReturningShape` (returning.dfy), over a small model of `syn`'s type syntax in `RustSyntax`
  (rust_syntax.dfy).
- **The DDL renderer** (`PgExternEntity::to_sql`). It covers the `STRICT` upgrade, the argument
  list, the return clause, the attribute, search-path and requires clauses, and the
  `CREATE OPERATOR` statement. It also covers identity (`Eq`/`Ord`/`Hash`) and
  `dot_identifier`. Module `PgExternSql` (entity.dfy).
- **Trigger registration** (`PgTrigger::new` and the generated items). It chooses the trigger's
  `sql` configuration, substitutes `@FUNCTION_NAME@`, and fixes the names and order of the
  emitted functions. Module `Trigger` (trigger.dfy).

`Wrappers` (wrappers.dfy) holds `Option` and `Result`. `Text` (text.dfy) holds the string
operations the renderer uses: join, ASCII upper-casing, decimal rendering and `str::replace`,
with their lemmas.

Panics in the source (`unwrap`, `expect`, `unimplemented!`, `todo!`, an out-of-range `fn_args[i]`)
are modelled as tagged errors, the same way as its `Err` returns. Every loop or in-place update in
the source is a `method`, proved equal to a function of its inputs. The properties are stated
about those functions.

## Model

| member | source | states |
|---|---|---|
| ReturningShape.TryFrom | pgx-utils/src/sql_entity_graph/pg_extern/returning.rs:134-236 | the classifier's result is `Classify` of the declared return type; the lemmas below state what `Classify` gives for each shape |
| ReturningShape.ScanSegments | pgx-utils/src/sql_entity_graph/pg_extern/returning.rs:150-188 | the flag-setting walk over the path's segments, with its early failure, yields exactly the left fold `ScanPath` |
| ReturningShape.RewriteLifetimes | pgx-utils/src/sql_entity_graph/pg_extern/returning.rs:194-213 | the in-place rewrite yields `StaticPath`: every segment with its lifetime arguments renamed to `'static` |
| ReturningShape.StaticSegment | pgx-utils/src/sql_entity_graph/pg_extern/returning.rs:195-212 | a segment keeps its identifier and argument count; lifetime arguments become `'static` and all other arguments are untouched |
| ReturningShape.CompositeSqlOf | pgx-utils/src/sql_entity_graph/pg_extern/returning.rs:388-401 | a `name!` column's `sql` is set exactly for a `composite_type!(e)` type; any non-macro type gives no `sql` |
| ReturningShape.ParseNameMacro | pgx-utils/src/sql_entity_graph/pg_extern/returning.rs:349-403 | it succeeds only on a column name (an identifier or one of `type`, `mod`, `extern`, `async`, `crate`, `use`), a comma and a type, and always succeeds on such input when the type is not a macro; the name and type are kept, and `sql` is present exactly when the type is a macro |
| ReturningShape.NameMacroKeywords | pgx-utils/src/sql_entity_graph/pg_extern/returning.rs:350-383 | each of the six keywords is accepted as written as a column name; any other keyword is rejected |
| ReturningShape.TupleItem | pgx-utils/src/sql_entity_graph/pg_extern/returning.rs:67-95 | a column gets a name only from `name!` and `sql` only from a macro; a non-macro element becomes `(T, None, None)` |
| ReturningShape.TupleItemKinds | pgx-utils/src/sql_entity_graph/pg_extern/returning.rs:71-94 | `name!(n, T)` gives `(T, n, None)`, `name!(n, composite_type!(e))` gives `sql e`, `composite_type!(e)` gives `(PgHeapTuple, None, e)`, any other type gives `(T, None, None)` |
| ReturningShape.TupleItemsFacts | pgx-utils/src/sql_entity_graph/pg_extern/returning.rs:63-98 | a tuple yields exactly one column per element, in order; it fails exactly when some element does, with the first failing element's error |
| ReturningShape.ClassifyTuple | pgx-utils/src/sql_entity_graph/pg_extern/returning.rs:222-228 | the empty tuple is a plain `Type`; any other tuple is `Iterated` with one column per element, in declaration order |
| ReturningShape.ParseTraitBounds | pgx-utils/src/sql_entity_graph/pg_extern/returning.rs:101-128 | an `impl`/`dyn` type classifies only as `None`, `SetOf` or `Iterated`; a first bound that is not a trait gives `None` |
| ReturningShape.IteratorShapes | pgx-utils/src/sql_entity_graph/pg_extern/returning.rs:37-60 | for `Iterator<Item = T>`: a tuple gives `Iterated` with one column per element; a path or a reference to a path gives `SetOf` with no `sql`; any other item fails |
| ReturningShape.OnlyIteratorBounds | pgx-utils/src/sql_entity_graph/pg_extern/returning.rs:37-60 | a trait bound whose last segment is not `Iterator` fails |
| ReturningShape.ParseTypeMacro | pgx-utils/src/sql_entity_graph/pg_extern/returning.rs:108-121 | a return-type macro succeeds exactly for a well-formed `composite_type!(e)`, giving `Type(PgHeapTuple, Some(e))` |
| ReturningShape.ScanPathFlags | pgx-utils/src/sql_entity_graph/pg_extern/returning.rs:156-164 | after the walk, `saw_datum`, `saw_pg_sys` and `saw_option`/`saw_box` are set exactly when such a segment occurs; the inner shape is never `Trigger` |
| ReturningShape.ScanPathOkIff | pgx-utils/src/sql_entity_graph/pg_extern/returning.rs:165-188 | the walk fails exactly when the `impl`/`dyn` first argument of some segment, at or after an `Option`/`Box` segment, fails to classify |
| ReturningShape.ScanPathInnerNone | pgx-utils/src/sql_entity_graph/pg_extern/returning.rs:165-188 | no inner shape is recorded exactly when no such wrapped `impl`/`dyn` argument exists |
| ReturningShape.ScanPathInnerLast | pgx-utils/src/sql_entity_graph/pg_extern/returning.rs:165-188 | the recorded inner shape is that of the last wrapped `impl`/`dyn` argument, since later ones overwrite earlier ones |
| ReturningShape.ClassifyTriggerIff | pgx-utils/src/sql_entity_graph/pg_extern/returning.rs:189-190 | a return classifies as `Trigger` exactly when it is a path with a `Datum` segment and either a `pg_sys` segment or no other segment |
| ReturningShape.TriggerPrecedence | pgx-utils/src/sql_entity_graph/pg_extern/returning.rs:189-192 | a `Datum` path is `Trigger` even when it also carries an `Option<impl ..>`/`Box<dyn ..>` shape |
| ReturningShape.ClassifyNonDatumPath | pgx-utils/src/sql_entity_graph/pg_extern/returning.rs:191-213 | any other path takes its recorded inner shape; with no wrapped trait it is a plain `Type` whose lifetimes are all `'static` |
| ReturningShape.ClassifyWrappedTrait | pgx-utils/src/sql_entity_graph/pg_extern/returning.rs:165-192 | `Option<impl Trait>` and `Box<dyn Trait>` classify as the trait bound does |
| ReturningShape.ClassifySimpleShapes | pgx-utils/src/sql_entity_graph/pg_extern/returning.rs:134-236 | no `->` gives `None`; a reference is a `Type` whose lifetime, if any, is `'static`; `impl`/`dyn` classify by their bounds; a macro succeeds only as `composite_type!` with `sql` set; other kinds fail |
| ReturningShape.TableIteratorResultIsPlain | pgx-utils/src/sql_entity_graph/pg_extern/returning.rs:148-214 | `Result<TableIterator<'static, (..)>, spi::Error>` classifies as a plain `Type`, not `Iterated`, whatever the tuple holds |
| PgExternSql.IdentityIsMetadata | pgx-utils/src/sql_entity_graph/pg_extern/entity/mod.rs:49-73 | equality, ordering and hashing of an entity see its metadata only; replacing every other field changes none of them |
| PgExternSql.DotIdentifierByName | pgx-utils/src/sql_entity_graph/pg_extern/entity/mod.rs:82-84 | two functions get the same graph label exactly when they have the same name |
| PgExternSql.FindFrom | pgx-utils/src/sql_entity_graph/pg_extern/entity/mod.rs:142-151 | the lookup returns the first neighbour that is a type or enum with the type id, or a built-in with the type name; no result means no neighbour matches |
| PgExternSql.UpgradeStrict | pgx-utils/src/sql_entity_graph/pg_extern/entity/mod.rs:106-119 | `STRICT` is appended exactly when it is absent and no argument is optional or of the `internal` type; otherwise the attributes are unchanged |
| PgExternSql.StrictUpgradeFacts | pgx-utils/src/sql_entity_graph/pg_extern/entity/mod.rs:106-119 | the upgrade only appends, never adds `STRICT` twice, never fires with an optional or `internal` argument, and is idempotent |
| PgExternSql.RenderArguments | pgx-utils/src/sql_entity_graph/pg_extern/entity/mod.rs:137-208 | the argument loop, with its early errors, yields exactly `ArgumentsText`, the prefix fold of the per-argument entries |
| PgExternSql.ArgumentsTextFacts | pgx-utils/src/sql_entity_graph/pg_extern/entity/mod.rs:137-208 | no arguments give the empty string; the list renders exactly when every argument does; with none skipped it is each line in order, joined by newlines, between a leading and a trailing newline |
| PgExternSql.ArgumentLinesFacts | pgx-utils/src/sql_entity_graph/pg_extern/entity/mod.rs:138-204 | the lines exist exactly when every entry succeeds; there is at most one line per argument, and exactly one, in order, when none is skipped |
| PgExternSql.ArgumentEntryFacts | pgx-utils/src/sql_entity_graph/pg_extern/entity/mod.rs:139-203 | an argument with no matching neighbour is an error; a `Skip` argument renders nothing; a mapping error is reported for that argument; a mapped argument renders `\t"<pattern>" [VARIADIC ]<prefix><sql>[ DEFAULT <d>]` and a composite the same line with its declared name, with `[]` exactly when brackets are required, failing without a name; in both the line ends in `, ` exactly when its position in the metadata is before the last, otherwise in a space |
| PgExternSql.DanglingCommaAfterSkip | pgx-utils/src/sql_entity_graph/pg_extern/entity/mod.rs:152-201 | a mapped argument followed only by a skipped one keeps its `, `, so the list ends in a dangling comma |
| PgExternSql.ReturnsClauseFacts | pgx-utils/src/sql_entity_graph/pg_extern/entity/mod.rs:209-258 | no return value gives `RETURNS void`; an unresolved return type is an error; a set-of return starts `RETURNS SETOF `; a skipped return fails; a table renders `RETURNS TABLE <prefix>TODO` |
| PgExternSql.CompositeReturnPairing | pgx-utils/src/sql_entity_graph/pg_extern/entity/mod.rs:224-246 | a plain composite return renders exactly when the declaration captured a plain value with a composite name, and a set-of composite exactly when it captured a set with one; other pairings are mismatch errors; `[]` follows the name exactly when brackets are required |
| PgExternSql.AttributesWithStrict | pgx-utils/src/sql_entity_graph/pg_extern/entity/mod.rs:265-275 | the attribute line is empty exactly without attributes and shows each attribute's text upper-cased; the strict upgrade adds ` STRICT` (or `STRICT` alone) at the end of the line, before its newline, and otherwise leaves the line unchanged |
| PgExternSql.SearchPathFacts | pgx-utils/src/sql_entity_graph/pg_extern/entity/mod.rs:259-264 | a search path renders as `SET search_path TO <schemas joined by ", ">` and a newline, naming every schema; without one nothing is rendered |
| PgExternSql.RequiredItemsAppend | pgx-utils/src/sql_entity_graph/pg_extern/entity/mod.rs:290-299 | `to_sql` reads the requires items from the attributes before the strict upgrade; reading them after it would give the same items, since only `Requires` attributes contribute |
| PgExternSql.RenderedSchema | pgx-utils/src/sql_entity_graph/pg_extern/entity/mod.rs:123-134 | the statement contains `CREATE FUNCTION <schema>."<name>"(` for an explicit schema, overriding the graph's prefix, and `CREATE FUNCTION <prefix>"<name>"(` otherwise |
| PgExternSql.CollectOptionals | pgx-utils/src/sql_entity_graph/pg_extern/entity/mod.rs:319-338 | the successive pushes yield the lines of `OptionalClauses` |
| PgExternSql.OptionalClausesFacts | pgx-utils/src/sql_entity_graph/pg_extern/entity/mod.rs:319-338 | the operator clauses are exactly the requested ones, each once, in the order COMMUTATOR, NEGATOR, RESTRICT, JOIN, HASHES, MERGES; there are none exactly when nothing is requested |
| PgExternSql.RightArgComma | pgx-utils/src/sql_entity_graph/pg_extern/entity/mod.rs:440 | RIGHTARG carries a trailing comma exactly when at least one optional clause is requested |
| PgExternSql.CommutatorOnly | pgx-utils/src/sql_entity_graph/pg_extern/entity/mod.rs:319-441 | an operator with only a commutator renders exactly one `COMMUTATOR = ..` clause, and RIGHTARG gets its comma |
| PgExternSql.RightOperandSqlAsWritten | pgx-utils/src/sql_entity_graph/pg_extern/entity/mod.rs:397-417 | as written, a non-array composite right operand maps exactly when `fn_args[0]` declares a composite name, and then to that name; every other right operand maps as the corrected rule does |
| PgExternSql.RightOperandSql | pgx-utils/src/sql_entity_graph/pg_extern/entity/mod.rs:397-417 | corrected: a composite right operand maps exactly when `fn_args[1]` declares a composite name, and then to that name, with `[]` exactly when brackets are required |
| PgExternSql.RightOperandReadsLeftName | pgx-utils/src/sql_entity_graph/pg_extern/entity/mod.rs:402-409 | as written, a non-array composite right operand prints the left operand's composite name, and fails when only the right operand declares one, where the corrected rule gives the right operand's name |
| PgExternSql.OperatorTextOk | pgx-utils/src/sql_entity_graph/pg_extern/entity/mod.rs:340-429 | as written, the operator statement renders exactly when arguments 0 and 1 exist, resolve in the graph and map to SQL (the right one by the as-written rule), and the operator has a name; a skipped operand fails; the same with the corrected rule for the corrected statement |
| PgExternSql.CorrectionOnlyChangesCompositeRight | pgx-utils/src/sql_entity_graph/pg_extern/entity/mod.rs:397-417 | the as-written and the corrected operator statements coincide unless the right operand is a non-array composite |
| PgExternSql.OperatorIgnoresExtraArguments | pgx-utils/src/sql_entity_graph/pg_extern/entity/mod.rs:340-381 | arguments beyond the second do not affect the operator statement |
| PgExternSql.ToSql | pgx-utils/src/sql_entity_graph/pg_extern/entity/mod.rs:104-449 | `to_sql` yields exactly `Render`: the source comment, the requires comment, `CREATE FUNCTION`, then the operator statement as written (RIGHTARG read as at line 407) when there is an operator |
| PgExternSql.RenderResolvesEveryType | pgx-utils/src/sql_entity_graph/pg_extern/entity/mod.rs:137-429 | a rendered function resolved every argument type and the return type in the graph; an operator also had two operands and a name |
| Trigger.FindSqlFacts | pgx-utils/src/sql_entity_graph/pg_trigger/mod.rs:22-37 | two or more `sql` arguments are an error; with exactly one, that one is chosen; with none, none is chosen |
| Trigger.New | pgx-utils/src/sql_entity_graph/pg_trigger/mod.rs:18-61 | the attribute scan and the in-place content rewrite yield exactly `NewTrigger` |
| Trigger.NewTriggerFacts | pgx-utils/src/sql_entity_graph/pg_trigger/mod.rs:18-61 | several `sql` arguments fail; none gives the default configuration, subject to the identifier check; one gives that configuration with its placeholder substituted, and the identifier is checked only if it keeps the default |
| Trigger.IdentCheckOnlyForDefault | pgx-utils/src/sql_entity_graph/pg_trigger/mod.rs:53-55 | when the chosen configuration overrides the default, the identifier check is never consulted and `new` succeeds |
| Trigger.SubstituteKeepsOverride | pgx-utils/src/sql_entity_graph/pg_trigger/mod.rs:39-48 | rewriting the content keeps `enabled`, the callback, the presence of content, and so whether the default is overridden |
| Trigger.PlaceholderReplaced | pgx-utils/src/sql_entity_graph/pg_trigger/mod.rs:39-48 | content made of pieces around `@FUNCTION_NAME@` becomes the same pieces around `<ident>_wrapper`, followed by a newline, for every content whose pieces neither contain `@FUNCTION_NAME@` nor end in `@FUNCTION_NAME` (which the next placeholder's `@` would complete); other uses of `@`, such as an `@>` operator, are allowed |
| Trigger.PieceWithoutAtIsCopied | pgx-utils/src/sql_entity_graph/pg_trigger/mod.rs:39-48 | a piece of trigger SQL without `@` meets the condition of `PlaceholderReplaced` |
| Trigger.GeneratedNames | pgx-utils/src/sql_entity_graph/pg_trigger/mod.rs:63-127 | the info function is `pg_finfo_` plus the wrapper's symbol; each generated name determines the identifier; the user's function, wrapper, info and entity functions have pairwise distinct names |
| Trigger.EmittedItems | pgx-utils/src/sql_entity_graph/pg_trigger/mod.rs:140-164 | the emitted items are the user's function, the wrapper calling it, the info function for that wrapper with API version 1, and the entity function for the user's function and configuration, in that order and with distinct names |

## Left out

- ReturningShape.AnonymizeLifetimes: `anonymonize_lifetimes` and `anonymonize_lifetimes_in_type_path` are not part of this model; they are the identity here, so their effect on lifetimes in the result is not captured.
- `syn` parsing is reduced to token sequences in which a type or an expression is a single token (`RustSyntax.ParseType`, `RustSyntax.ParseExpr`); the grammar of Rust types is not modelled.
- Token streams (`quote!`, `syn::parse2`, `ToTokens` output, `Returning::to_tokens`): the generated items are modelled by name and purpose, not by their tokens; the generated wrapper's runtime behaviour (`from_fcinfo`, `into_datum`, its `expect` panics) is foreign-function marshalling and is left out.
- `ident_is_acceptable_to_postgres` is not part of this model; it is the parameter `identOk` of `Trigger.New`.
- `ToSqlConfig` is not part of this model; it is reduced to `enabled`, `callback` and `content`, with `ToSqlConfig::default()` as enabled and empty and `overrides_default` as disabled or carrying a callback or content.
- `PgTriggerAttribute` variants other than `sql` are not part of this model; they are one `OtherAttribute` case that `new` skips.
- The entity graph (petgraph) is reduced to the function node's neighbours in iteration order; `id_matches` is equality of type ids; `schema_prefix_for` and `get_module_pathname` are values carried by the `Context`.
- The `Display` of `ExternArgs` is not part of this model; it is the function `Context.display`. Upper-casing covers ASCII letters only, not Unicode case mapping.
- `PositioningRef` items of `Requires` are modelled by their displayed text.
- The derived `Ord` and `Hash` of the function metadata are parameters of `PgExternSql.Compare` and `PgExternSql.HashOf`.
- Error messages (eyre wording, `wrap_err` context) and `tracing` instrumentation are reduced to `RenderError`, `ClassifyError` and `TriggerError` tags.
- `line` is a `nat`, not a 32-bit integer.
- The accessors `rust_identifier`, `file` and `line` and the conversion into `SqlGraphEntity` (entity/mod.rs:75-96) only read fields and are not modelled.
- Behaviour one might not expect, modelled as the code has it: a `Table` return renders the placeholder `TABLE TODO`, not a column list. The return clause has no trigger-specific case; the mapped SQL of the return type decides it. The declared-versus-realised shape cross-check applies only to composite returns. Type lookup takes the first matching neighbour rather than requiring exactly one. The operator statement requires arguments 0 and 1 to exist, not exactly two arguments. A non-array composite right operand of an operator is named from `fn_args[0]` (see Findings); `PgExternSql.Render` keeps that, and the corrected statement is `PgExternSql.OperatorText` with `corrected` set.

## Findings

| source | as written | input that shows it | evidently intended | confidence | as-written member | corrected member |
|---|---|---|---|---|---|---|
| pgx-utils/src/sql_entity_graph/pg_extern/entity/mod.rs:407 | a non-array composite right operand of an operator takes its SQL name from `fn_args[0]`, the left operand | an operator over two composite types whose declarations name `dog` (left) and `cat` (right): RIGHTARG is rendered as `dog` | the right operand is named from `fn_args[1]`, as the array case at line 403 does | not executed | PgExternSql.RightOperandReadsLeftName | PgExternSql.RightOperandSql |
