/** `#[pg_trigger]`: choosing the trigger's SQL configuration, and the names and order of the
    items the attribute emits (pgx-utils/src/sql_entity_graph/pg_trigger/mod.rs). */
module Trigger {
  import opened Wrappers
  import opened Text

  /** `ToSqlConfig`: whether SQL is generated, a callback producing it, or literal content. */
  datatype ToSqlConfig = ToSqlConfig(enabled: bool, callback: Option<string>, content: Option<string>)

  /** `ToSqlConfig::default()` */
  function DefaultConfig(): ToSqlConfig
  {
    ToSqlConfig(true, None, None)
  }

  /** `ToSqlConfig::overrides_default`: generation is disabled or replaced. */
  predicate OverridesDefault(c: ToSqlConfig)
  {
    !c.enabled || c.callback.Some? || c.content.Some?
  }

  /** `PgTriggerAttribute`: an `sql = ...` argument, or any other argument of the attribute. */
  datatype TriggerAttribute = Sql(config: ToSqlConfig) | OtherAttribute(name: string)

  /** The annotated `ItemFn`, reduced to its identifier. */
  datatype ItemFn = ItemFn(ident: string)

  datatype PgTrigger = PgTrigger(func: ItemFn, toSqlConfig: ToSqlConfig)

  datatype TriggerError = MultipleSql | IdentNotAcceptable

  const Placeholder: string := "@FUNCTION_NAME@"

  // ---------------------------------------------------------------------------
  // Generated names

  /** The extern "C" symbol PostgreSQL calls. */
  function WrapperName(ident: string): string
  {
    ident + "_wrapper"
  }

  /** The function the schema generator calls to collect the trigger's entity. */
  function EntityFnName(ident: string): string
  {
    "__pgx_internals_trigger_" + ident
  }

  /** The info function of the version-1 calling convention. */
  function FinfoName(ident: string): string
  {
    "pg_finfo_" + ident + "_wrapper"
  }

  /** The info function is `pg_finfo_` followed by the wrapper's symbol, as PostgreSQL looks it up;
      each name determines the identifier, and the three names and the user's function are
      pairwise distinct. */
  lemma GeneratedNames(a: string, b: string)
    ensures FinfoName(a) == "pg_finfo_" + WrapperName(a)
    ensures WrapperName(a) == WrapperName(b) <==> a == b
    ensures EntityFnName(a) == EntityFnName(b) <==> a == b
    ensures FinfoName(a) == FinfoName(b) <==> a == b
    ensures a != WrapperName(a) && a != EntityFnName(a) && a != FinfoName(a)
    ensures WrapperName(a) != EntityFnName(a) && WrapperName(a) != FinfoName(a) && EntityFnName(a) != FinfoName(a)
  {
    if WrapperName(a) == WrapperName(b) {
      assert a == WrapperName(a)[..|a|];
    }
    if EntityFnName(a) == EntityFnName(b) {
      assert a == EntityFnName(a)[24..];
    }
    if FinfoName(a) == FinfoName(b) {
      assert |a| == |b|;
      assert a == FinfoName(a)[9..9 + |a|];
      assert b == FinfoName(b)[9..9 + |b|];
    }
  }

  // ---------------------------------------------------------------------------
  // Choosing the configuration

  /** The `sql` argument among `attrs`: none, the only one, or an error at the second. */
  function FindSql(attrs: seq<TriggerAttribute>): Result<Option<ToSqlConfig>, TriggerError>
  {
    if |attrs| == 0 then Ok(None)
    else
      var found :- FindSql(attrs[..|attrs| - 1]);
      var last := attrs[|attrs| - 1];
      if !last.Sql? then Ok(found)
      else if found.None? then Ok(Some(last.config))
      else Err(MultipleSql)
  }

  /** How many `sql` arguments `attrs` holds. */
  function CountSql(attrs: seq<TriggerAttribute>): nat
  {
    if |attrs| == 0 then 0
    else CountSql(attrs[..|attrs| - 1]) + if attrs[|attrs| - 1].Sql? then 1 else 0
  }

  /** More than one `sql` argument is an error; with exactly one, it is the one chosen; with none,
      nothing is. */
  lemma {:induction false} FindSqlFacts(attrs: seq<TriggerAttribute>)
    ensures FindSql(attrs) == Err(MultipleSql) <==> CountSql(attrs) >= 2
    ensures FindSql(attrs) == Ok(None) <==> CountSql(attrs) == 0
    ensures forall c :: FindSql(attrs) == Ok(Some(c)) <==> CountSql(attrs) == 1 && Sql(c) in attrs
    ensures FindSql(attrs).Err? ==> FindSql(attrs) == Err(MultipleSql)
    ensures CountSql(attrs) == 0 <==> forall i :: 0 <= i < |attrs| ==> !attrs[i].Sql?
  {
    if |attrs| > 0 {
      var init := attrs[..|attrs| - 1];
      var last := attrs[|attrs| - 1];
      FindSqlFacts(init);
      assert attrs == init + [last];
      assert forall i :: 0 <= i < |init| ==> attrs[i] == init[i];
      forall c
        ensures FindSql(attrs) == Ok(Some(c)) <==> CountSql(attrs) == 1 && Sql(c) in attrs
      {
        if CountSql(attrs) == 1 && Sql(c) in attrs {
          if last == Sql(c) {
            assert CountSql(init) == 0;
          } else {
            assert Sql(c) in init;
            var k :| 0 <= k < |init| && init[k] == Sql(c);
            assert CountSql(init) >= 1;
          }
        }
      }
    }
  }

  /** Once the prefix `attrs[..k]` has two `sql` arguments, so has every longer prefix. */
  lemma {:induction false} FindSqlErrPersists(attrs: seq<TriggerAttribute>, k: nat, n: nat)
    requires k <= n <= |attrs| && FindSql(attrs[..k]).Err?
    ensures FindSql(attrs[..n]).Err?
    decreases n - k
  {
    if k < n {
      assert attrs[..k + 1][..k] == attrs[..k];
      FindSqlErrPersists(attrs, k + 1, n);
    }
  }

  /** The content with every `@FUNCTION_NAME@` replaced by the wrapper's symbol, and a newline
      appended; a configuration without content is kept. */
  function SubstitutePlaceholder(c: ToSqlConfig, ident: string): ToSqlConfig
  {
    if c.content.Some? then c.(content := Some(Replace(c.content.value, Placeholder, WrapperName(ident)) + "\n"))
    else c
  }

  /** The configuration `new` keeps: the `sql` argument's, rewritten, or the default. */
  function ChosenConfig(func: ItemFn, attrs: seq<TriggerAttribute>): Result<ToSqlConfig, TriggerError>
  {
    var found :- FindSql(attrs);
    Ok(if found.Some? then SubstitutePlaceholder(found.value, func.ident) else DefaultConfig())
  }

  /** `PgTrigger::new` as a function; `identOk` is `ident_is_acceptable_to_postgres`. */
  function NewTrigger(func: ItemFn, attrs: seq<TriggerAttribute>, identOk: string -> bool): Result<PgTrigger, TriggerError>
  {
    var config :- ChosenConfig(func, attrs);
    if !OverridesDefault(config) && !identOk(func.ident) then Err(IdentNotAcceptable)
    else Ok(PgTrigger(func, config))
  }

  /** `PgTrigger::new`: scans the attributes keeping the first `sql` argument, stops at a second,
      then rewrites the chosen content in place. */
  method New(func: ItemFn, attrs: seq<TriggerAttribute>, identOk: string -> bool) returns (r: Result<PgTrigger, TriggerError>)
    ensures r == NewTrigger(func, attrs, identOk)
  {
    var found: Option<ToSqlConfig> := None;
    var i := 0;
    while i < |attrs|
      invariant 0 <= i <= |attrs|
      invariant FindSql(attrs[..i]) == Ok(found)
    {
      assert attrs[..i + 1][..i] == attrs[..i];
      match attrs[i] {
        case Sql(c) =>
          if found.None? {
            found := Some(c);
          } else {
            FindSqlErrPersists(attrs, i + 1, |attrs|);
            assert attrs[..|attrs|] == attrs;
            FindSqlFacts(attrs);
            return Err(MultipleSql);
          }
        case OtherAttribute(_) =>
      }
      i := i + 1;
    }
    assert attrs[..i] == attrs;
    if found.Some? && found.value.content.Some? {
      var updated := Replace(found.value.content.value, Placeholder, func.ident + "_wrapper") + "\n";
      found := Some(found.value.(content := Some(updated)));
    }
    var config := if found.Some? then found.value else DefaultConfig();
    if !OverridesDefault(config) {
      if !identOk(func.ident) {
        return Err(IdentNotAcceptable);
      }
    }
    r := Ok(PgTrigger(func, config));
  }

  /** Rewriting the content never changes whether the configuration overrides the default. */
  lemma SubstituteKeepsOverride(c: ToSqlConfig, ident: string)
    ensures OverridesDefault(SubstitutePlaceholder(c, ident)) == OverridesDefault(c)
    ensures SubstitutePlaceholder(c, ident).enabled == c.enabled
    ensures SubstitutePlaceholder(c, ident).callback == c.callback
    ensures SubstitutePlaceholder(c, ident).content.Some? == c.content.Some?
  {
  }

  /** A piece of trigger SQL that the rewrite copies through: it does not contain the placeholder,
      and it does not end with the placeholder's first fourteen characters, which the `@` of a
      following placeholder would complete. */
  ghost predicate CopiedPiece(w: string)
  {
    !IsInfix(Placeholder, w) && !InfixAt(Placeholder[..|Placeholder| - 1], w, |w| - (|Placeholder| - 1))
  }

  /** In a copied piece followed by the placeholder, no occurrence starts inside the piece. */
  lemma CopiedPieceNoMatch(w: string, k: nat)
    requires CopiedPiece(w) && k < |w|
    ensures !MatchAt(w + Placeholder, k, Placeholder)
  {
    var s := w + Placeholder;
    var n := |Placeholder|;
    if k + n <= |w| {
      assert s[k..k + n] == w[k..k + n];
      assert !InfixAt(Placeholder, w, k);
    } else {
      var j := |w| - k;
      assert s[k..k + n][j] == '@';
      if j < n - 1 {
        assert Placeholder[1..n - 1] == "FUNCTION_NAME";
        assert Placeholder[j] == Placeholder[1..n - 1][j - 1];
      } else {
        assert k == |w| - (n - 1);
        assert s[k..k + n][..n - 1] == s[k..|w|] == w[k..|w|];
      }
    }
  }

  /** Content written as copied pieces around `@FUNCTION_NAME@` comes out as the same pieces
      around the wrapper's symbol, followed by a newline. */
  lemma PlaceholderReplaced(c: ToSqlConfig, ident: string, pieces: seq<string>)
    requires c.content == Some(Join(pieces, Placeholder))
    requires forall i :: 0 <= i < |pieces| ==> CopiedPiece(pieces[i])
    ensures SubstitutePlaceholder(c, ident).content == Some(Join(pieces, WrapperName(ident)) + "\n")
  {
    forall i, k | 0 <= i < |pieces| && 0 <= k < |pieces[i]|
      ensures !MatchAt(pieces[i] + Placeholder, k, Placeholder)
    {
      CopiedPieceNoMatch(pieces[i], k);
    }
    ReplaceJoin(pieces, Placeholder, WrapperName(ident));
  }

  /** A piece free of `@`, such as plain `CREATE TRIGGER` text, is copied through. */
  lemma PieceWithoutAtIsCopied(w: string)
    requires '@' !in w
    ensures CopiedPiece(w)
  {
    if IsInfix(Placeholder, w) {
      var p :| InfixAt(Placeholder, w, p);
      InfixHeadOccurs(Placeholder, w, p);
    }
    var n := |Placeholder|;
    if InfixAt(Placeholder[..n - 1], w, |w| - (n - 1)) {
      InfixHeadOccurs(Placeholder[..n - 1], w, |w| - (n - 1));
    }
  }


  /** What `new` returns: an error exactly when there are several `sql` arguments or the default
      configuration is kept for an identifier PostgreSQL would not accept; otherwise the function
      unchanged, with the default configuration when there is no `sql` argument and the rewritten
      `sql` argument when there is one. */
  lemma NewTriggerFacts(func: ItemFn, attrs: seq<TriggerAttribute>, identOk: string -> bool)
    ensures CountSql(attrs) >= 2 ==> NewTrigger(func, attrs, identOk) == Err(MultipleSql)
    ensures CountSql(attrs) == 0 ==>
      NewTrigger(func, attrs, identOk) == if identOk(func.ident) then Ok(PgTrigger(func, DefaultConfig())) else Err(IdentNotAcceptable)
    ensures forall c :: CountSql(attrs) == 1 && Sql(c) in attrs ==>
      NewTrigger(func, attrs, identOk)
        == if !OverridesDefault(c) && !identOk(func.ident) then Err(IdentNotAcceptable)
           else Ok(PgTrigger(func, SubstitutePlaceholder(c, func.ident)))
  {
    FindSqlFacts(attrs);
    forall c | CountSql(attrs) == 1 && Sql(c) in attrs
      ensures NewTrigger(func, attrs, identOk)
        == if !OverridesDefault(c) && !identOk(func.ident) then Err(IdentNotAcceptable)
           else Ok(PgTrigger(func, SubstitutePlaceholder(c, func.ident)))
    {
      SubstituteKeepsOverride(c, func.ident);
    }
  }

  /** The identifier check is consulted only when the configuration keeps the default. */
  lemma IdentCheckOnlyForDefault(func: ItemFn, attrs: seq<TriggerAttribute>, identOk: string -> bool, identOk': string -> bool)
    requires ChosenConfig(func, attrs).Ok? && OverridesDefault(ChosenConfig(func, attrs).value)
    ensures NewTrigger(func, attrs, identOk) == NewTrigger(func, attrs, identOk')
    ensures NewTrigger(func, attrs, identOk).Ok?
  {
  }

  // ---------------------------------------------------------------------------
  // Emitted items

  /** `PgTriggerEntity`, as the entity function submits it; `file!()`, `line!()` and
      `module_path!()` are those of the expansion site. */
  datatype PgTriggerEntity = PgTriggerEntity(
    functionName: string, file: string, line: nat, fullPath: string, modulePath: string,
    toSqlConfig: ToSqlConfig)

  /** The items `to_tokens` emits, by what they are rather than by their tokens. */
  datatype Item =
    | UserFunction(func: ItemFn)
    | WrapperFunction(name: string, calls: string)
    | FinfoFunction(name: string, apiVersion: nat)
    | EntityFunction(name: string, entity: PgTriggerEntity)

  /** `wrapper_tokens` */
  function WrapperItem(t: PgTrigger): Item
  {
    WrapperFunction(WrapperName(t.func.ident), t.func.ident)
  }

  /** `finfo_tokens` */
  function FinfoItem(t: PgTrigger): Item
  {
    FinfoFunction(FinfoName(t.func.ident), 1)
  }

  /** `entity_tokens` */
  function EntityItem(t: PgTrigger, file: string, line: nat, modulePath: string): Item
  {
    EntityFunction(EntityFnName(t.func.ident),
      PgTriggerEntity(t.func.ident, file, line, modulePath + "::" + t.func.ident, modulePath, t.toSqlConfig))
  }

  /** `to_tokens` */
  function ToTokens(t: PgTrigger, file: string, line: nat, modulePath: string): seq<Item>
  {
    [UserFunction(t.func), WrapperItem(t), FinfoItem(t), EntityItem(t, file, line, modulePath)]
  }

  /** The symbol of each emitted function. */
  function ItemName(item: Item): string
  {
    match item
    case UserFunction(f) => f.ident
    case WrapperFunction(n, _) => n
    case FinfoFunction(n, _) => n
    case EntityFunction(n, _) => n
  }

  /** The user's function comes first, then the wrapper that calls it, then the info function
      naming that wrapper with API version 1, then the entity function whose entity names the
      user's function and carries the trigger's configuration; no two items share a symbol. */
  lemma EmittedItems(t: PgTrigger, file: string, line: nat, modulePath: string)
    ensures var items := ToTokens(t, file, line, modulePath);
      && |items| == 4
      && items[0] == UserFunction(t.func)
      && items[1].WrapperFunction? && items[1].calls == t.func.ident
      && items[2].FinfoFunction? && items[2].apiVersion == 1 && items[2].name == "pg_finfo_" + items[1].name
      && items[3].EntityFunction? && items[3].entity.functionName == t.func.ident
      && items[3].entity.fullPath == modulePath + "::" + items[3].entity.functionName
      && items[3].entity.toSqlConfig == t.toSqlConfig
      && forall i, j :: 0 <= i < j < 4 ==> ItemName(items[i]) != ItemName(items[j])
  {
    GeneratedNames(t.func.ident, t.func.ident);
  }
}
