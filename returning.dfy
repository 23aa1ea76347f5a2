/** The return-shape classifier of `#[pg_extern]` functions: `Returning::try_from` and the
    parsers it delegates to (pgx-utils/src/sql_entity_graph/pg_extern/returning.rs). */
module ReturningShape {
  import opened Wrappers
  import opened RustSyntax

  /** One column of a table-returning function: its type, its `name!` and its `composite_type!`. */
  datatype IteratedItem = IteratedItem(ty: Ty, name: Option<string>, sql: Option<Expr>)

  /** The canonical shapes; `Void` is the source's `Returning::None`. */
  datatype Returning =
    | Void
    | Type(ty: Ty, sql: Option<Expr>)
    | SetOf(path: seq<Segment>, sql: Option<Expr>)
    | Iterated(items: seq<IteratedItem>)
    | Trigger

  /** Only `UnknownReturnType` is an `Err` in the source; the others are its panics:
      `unimplemented!()` (Unsupported), `expect` on a macro body that does not parse
      (MalformedMacro), and `unwrap` on an empty path, bound list or argument list (MissingElement). */
  datatype ClassifyError = UnknownReturnType | Unsupported | MalformedMacro | MissingElement

  /** `anonymonize_lifetimes` is not part of this model; the classifier only relies on it
      keeping the kind of the type, and the model takes it as the identity. */
  function AnonymizeLifetimes(t: Ty): Ty { t }

  /** `anonymonize_lifetimes_in_type_path`, likewise taken as the identity. */
  function AnonymizeLifetimesInTypePath(p: seq<Segment>): seq<Segment> { p }

  /** `::pgx::PgHeapTuple<'_, impl WhoAllocated<::pgx::pg_sys::HeapTupleData>>` */
  const PgHeapTupleType: Ty :=
    Path([Simple("pgx"),
          Segment("PgHeapTuple", AngleBracketed([
            LifetimeArg(Lifetime("_")),
            TypeArg(ImplTrait([TraitBound([Segment("WhoAllocated", AngleBracketed([
              TypeArg(Path([Simple("pgx"), Simple("pg_sys"), Simple("HeapTupleData")]))]))])]))]))])

  /** The keywords `name!` accepts as a column name besides plain identifiers. */
  const NameKeywords: seq<string> := ["type", "mod", "extern", "async", "crate", "use"]

  datatype NameMacro = NameMacro(ident: string, ty: Ty, sql: Option<Expr>)

  function ColumnName(t: Token): Option<string>
  {
    match t
    case IdentToken(n) => Some(n)
    case KeywordToken(w) => if w in NameKeywords then Some(w) else None
    case _ => None
  }

  predicate IsMacroNamed(t: Ty, name: string)
  {
    t.Macro? && |t.macroPath| > 0 && t.macroPath[|t.macroPath| - 1].ident == name
  }

  /** The `sql` part of a `name!` column: a `composite_type!(e)` type gives `e`. */
  function CompositeSqlOf(t: Ty): (r: Result<Option<Expr>, ClassifyError>)
    ensures r.Ok? && r.value.Some? <==> IsMacroNamed(t, "composite_type") && ParseExpr(t.tokens).Some?
    ensures !t.Macro? ==> r == Ok(None)
  {
    match t
    case Macro(mpath, toks) =>
      if |mpath| == 0 then Err(MissingElement)
      else if mpath[|mpath| - 1].ident == "composite_type" then
        match ParseExpr(toks)
        case Some(e) => Ok(Some(e))
        case None => Err(MalformedMacro)
      else Err(Unsupported)
    case _ => Ok(None)
  }

  /** `NameMacro::parse`: a column name, a comma and a type, and nothing else. */
  function ParseNameMacro(tokens: seq<Token>): (r: Result<NameMacro, ClassifyError>)
    ensures r.Ok? ==> |tokens| == 3 && tokens[1].CommaToken?
    ensures r.Ok? ==> tokens[0].IdentToken? || (tokens[0].KeywordToken? && tokens[0].word in NameKeywords)
    ensures r.Ok? ==> Some(r.value.ident) == ColumnName(tokens[0]) && Some(r.value.ty) == ParseType(tokens[2..])
    ensures r.Ok? ==> (r.value.sql.Some? <==> r.value.ty.Macro?)
    ensures |tokens| == 3 && ColumnName(tokens[0]).Some? && tokens[1].CommaToken?
            && ParseType(tokens[2..]).Some? && !ParseType(tokens[2..]).value.Macro?
            ==> r == Ok(NameMacro(ColumnName(tokens[0]).value, ParseType(tokens[2..]).value, None))
  {
    if |tokens| == 0 || ColumnName(tokens[0]).None? then Err(MalformedMacro)
    else if |tokens| < 2 || !tokens[1].CommaToken? then Err(MalformedMacro)
    else match ParseType(tokens[2..])
      case None => Err(MalformedMacro)
      case Some(ty) =>
        var sql :- CompositeSqlOf(ty);
        Ok(NameMacro(ColumnName(tokens[0]).value, ty, sql))
  }

  /** One element of a returned tuple (the closure of `parse_type_tuple`). */
  function TupleItem(elem: Ty): (r: Result<IteratedItem, ClassifyError>)
    ensures r.Ok? && r.value.name.Some? ==> IsMacroNamed(AnonymizeLifetimes(elem), "name")
    ensures r.Ok? && r.value.sql.Some? ==> AnonymizeLifetimes(elem).Macro?
    ensures !AnonymizeLifetimes(elem).Macro? ==> r == Ok(IteratedItem(AnonymizeLifetimes(elem), None, None))
  {
    var e := AnonymizeLifetimes(elem);
    match e
    case Macro(mpath, toks) =>
      if |mpath| == 0 then Err(MissingElement)
      else if mpath[|mpath| - 1].ident == "name" then
        var m :- ParseNameMacro(toks);
        Ok(IteratedItem(m.ty, Some(m.ident), m.sql))
      else if mpath[|mpath| - 1].ident == "composite_type" then
        match ParseExpr(toks)
        case Some(sql) => Ok(IteratedItem(PgHeapTupleType, None, Some(sql)))
        case None => Err(MalformedMacro)
      else Err(Unsupported)
    case _ => Ok(IteratedItem(e, None, None))
  }

  function TupleItems(elems: seq<Ty>): Result<seq<IteratedItem>, ClassifyError>
    decreases |elems|
  {
    if elems == [] then Ok([])
    else
      var first :- TupleItem(elems[0]);
      var rest :- TupleItems(elems[1..]);
      Ok([first] + rest)
  }

  /** `parse_type_tuple` */
  function ParseTypeTuple(elems: seq<Ty>): Result<Returning, ClassifyError>
  {
    var items :- TupleItems(elems);
    Ok(Iterated(items))
  }

  /** The `Item = T` of an `Iterator` bound. */
  function IteratorItem(t: Ty): Result<Returning, ClassifyError>
  {
    match t
    case Tuple(elems) => ParseTypeTuple(elems)
    case Path(p) => Ok(SetOf(AnonymizeLifetimesInTypePath(p), None))
    case Reference(_, _, inner) =>
      if inner.Path? then Ok(SetOf(AnonymizeLifetimesInTypePath(inner.segments), None))
      else Err(Unsupported)
    case _ => Err(Unsupported)
  }

  /** `parse_trait_bound` */
  function ParseTraitBound(path: seq<Segment>): Result<Returning, ClassifyError>
  {
    if |path| == 0 then Err(MissingElement)
    else
      var last := path[|path| - 1];
      if last.ident != "Iterator" then Err(Unsupported)
      else match last.arguments
        case AngleBracketed(args) =>
          if |args| == 0 then Err(MissingElement)
          else (match args[0]
            case Binding(_, itemTy) => IteratorItem(itemTy)
            case _ => Err(Unsupported))
        case _ => Err(Unsupported)
  }

  /** `parse_impl_trait` and `parse_dyn_trait`, which have the same body. */
  function ParseTraitBounds(bounds: seq<Bound>): (r: Result<Returning, ClassifyError>)
    ensures r.Ok? ==> r.value.Void? || r.value.SetOf? || r.value.Iterated?
    ensures |bounds| > 0 && bounds[0].LifetimeBound? ==> r == Ok(Void)
  {
    if |bounds| == 0 then Err(MissingElement)
    else match bounds[0]
      case TraitBound(p) => ParseTraitBound(p)
      case LifetimeBound(_) => Ok(Void)
  }

  /** `parse_type_macro` */
  function ParseTypeMacro(mpath: seq<Segment>, tokens: seq<Token>): (r: Result<Returning, ClassifyError>)
    ensures r.Ok? <==> IsMacroNamed(Macro(mpath, tokens), "composite_type") && ParseExpr(tokens).Some?
    ensures r.Ok? ==> r == Ok(Type(PgHeapTupleType, ParseExpr(tokens)))
  {
    if |mpath| == 0 then Err(MissingElement)
    else if mpath[|mpath| - 1].ident == "composite_type" then
      match ParseExpr(tokens)
      case Some(sql) => Ok(Type(PgHeapTupleType, Some(sql)))
      case None => Err(MalformedMacro)
    else Err(Unsupported)
  }

  // ---------------------------------------------------------------------------
  // The walk over the segments of a returned path

  /** The flags the walk keeps, and the shape of the last `impl`/`dyn` argument it classified. */
  datatype PathScan = PathScan(sawPgSys: bool, sawDatum: bool, sawOption: bool, sawBox: bool,
                               inner: Option<Returning>)

  const InitialScan: PathScan := PathScan(false, false, false, false, None)

  /** The bounds of a segment's first generic argument when it is `impl Trait` or `dyn Trait`. */
  function InnerTraitBounds(seg: Segment): Option<seq<Bound>>
  {
    match seg.arguments
    case AngleBracketed(args) =>
      if |args| == 0 then None
      else (match args[0]
        case TypeArg(ImplTrait(bs)) => Some(bs)
        case TypeArg(TraitObject(bs)) => Some(bs)
        case _ => None)
    case _ => None
  }

  predicate IsWrapper(seg: Segment)
  {
    seg.ident == "Option" || seg.ident == "Box"
  }

  /** One iteration of the walk. */
  function ScanSegment(st: PathScan, seg: Segment): Result<PathScan, ClassifyError>
  {
    var st1 := st.(sawPgSys := st.sawPgSys || seg.ident == "pg_sys",
                   sawDatum := st.sawDatum || seg.ident == "Datum",
                   sawOption := st.sawOption || seg.ident == "Option",
                   sawBox := st.sawBox || seg.ident == "Box");
    if (st1.sawOption || st1.sawBox) && InnerTraitBounds(seg).Some? then
      var shape :- ParseTraitBounds(InnerTraitBounds(seg).value);
      Ok(st1.(inner := Some(shape)))
    else Ok(st1)
  }

  /** The walk over a whole path, as a left fold of ScanSegment. */
  function ScanPath(segs: seq<Segment>): Result<PathScan, ClassifyError>
    decreases |segs|
  {
    if segs == [] then Ok(InitialScan)
    else
      var prev :- ScanPath(segs[..|segs| - 1]);
      ScanSegment(prev, segs[|segs| - 1])
  }

  /** Segment `j` carries an `impl`/`dyn` first argument and an `Option` or `Box` segment
      comes at or before it, so the walk classifies its argument. */
  ghost predicate WrappedTraitAt(segs: seq<Segment>, j: int)
  {
    0 <= j < |segs| && InnerTraitBounds(segs[j]).Some?
    && exists w :: 0 <= w <= j && IsWrapper(segs[w])
  }

  predicate HasSegment(segs: seq<Segment>, ident: string)
  {
    exists i :: 0 <= i < |segs| && segs[i].ident == ident
  }

  /** The test that makes a path the trigger's `pg_sys::Datum`. */
  predicate IsDatumPath(segs: seq<Segment>)
  {
    (HasSegment(segs, "Datum") && HasSegment(segs, "pg_sys")) || (HasSegment(segs, "Datum") && |segs| == 1)
  }

  function StaticArgument(a: GenericArgument): GenericArgument
  {
    if a.LifetimeArg? then LifetimeArg(Lifetime("static")) else a
  }

  /** A segment with every lifetime among its angle-bracketed arguments renamed to `'static`. */
  function StaticSegment(s: Segment): (r: Segment)
    ensures r.ident == s.ident
    ensures !s.arguments.AngleBracketed? ==> r == s
    ensures s.arguments.AngleBracketed? ==>
      r.arguments.AngleBracketed? && |r.arguments.args| == |s.arguments.args|
      && forall i :: 0 <= i < |s.arguments.args| ==>
           (s.arguments.args[i].LifetimeArg? ==> r.arguments.args[i] == LifetimeArg(Lifetime("static")))
           && (!s.arguments.args[i].LifetimeArg? ==> r.arguments.args[i] == s.arguments.args[i])
  {
    match s.arguments
    case AngleBracketed(args) =>
      Segment(s.ident, AngleBracketed(seq(|args|, i requires 0 <= i < |args| => StaticArgument(args[i]))))
    case _ => s
  }

  function StaticPath(segs: seq<Segment>): (r: seq<Segment>)
    ensures |r| == |segs| && forall i :: 0 <= i < |segs| ==> r[i] == StaticSegment(segs[i])
  {
    seq(|segs|, i requires 0 <= i < |segs| => StaticSegment(segs[i]))
  }

  /** The `syn::Type::Path` branch of `try_from`. */
  function ClassifyPath(segs: seq<Segment>): Result<Returning, ClassifyError>
  {
    var st :- ScanPath(segs);
    if (st.sawDatum && st.sawPgSys) || (st.sawDatum && |segs| == 1) then Ok(Trigger)
    else if st.inner.Some? then Ok(st.inner.value)
    else Ok(Type(Path(StaticPath(segs)), None))
  }

  /** `Returning::try_from`, as a function of the declared return type. */
  function Classify(rt: ReturnType): Result<Returning, ClassifyError>
  {
    match rt
    case Default => Ok(Void)
    case Returns(t) =>
      var ty := AnonymizeLifetimes(t);
      match ty
      case ImplTrait(bs) => ParseTraitBounds(bs)
      case TraitObject(bs) => ParseTraitBounds(bs)
      case Path(segs) => ClassifyPath(segs)
      case Reference(lt, m, elem) =>
        Ok(Type(Reference(if lt.Some? then Some(Lifetime("static")) else None, m, elem), None))
      case Tuple(elems) => if elems == [] then Ok(Type(ty, None)) else ParseTypeTuple(elems)
      case Macro(mpath, toks) => ParseTypeMacro(mpath, toks)
      case OtherType => Err(UnknownReturnType)
  }

  // ---------------------------------------------------------------------------
  // The imperative parts of try_from

  /** The loop over the path's segments that sets `saw_pg_sys`, `saw_datum`, `saw_option_ident`,
      `saw_box_ident` and `maybe_inner_impl_trait`. */
  method ScanSegments(segs: seq<Segment>) returns (r: Result<PathScan, ClassifyError>)
    ensures r == ScanPath(segs)
  {
    var sawPgSys, sawDatum, sawOption, sawBox := false, false, false, false;
    var inner: Option<Returning> := None;
    var i := 0;
    while i < |segs|
      invariant 0 <= i <= |segs|
      invariant ScanPath(segs[..i]) == Ok(PathScan(sawPgSys, sawDatum, sawOption, sawBox, inner))
    {
      var seg := segs[i];
      if seg.ident == "pg_sys" {
        sawPgSys := true;
      } else if seg.ident == "Datum" {
        sawDatum := true;
      } else if seg.ident == "Option" {
        sawOption := true;
      } else if seg.ident == "Box" {
        sawBox := true;
      }
      assert segs[..i + 1][..i] == segs[..i];
      if sawOption || sawBox {
        var bounds := InnerTraitBounds(seg);
        if bounds.Some? {
          var shape := ParseTraitBounds(bounds.value);
          if shape.Err? {
            ScanPathErrPersists(segs, i + 1);
            return Err(shape.error);
          }
          inner := Some(shape.value);
        }
      }
      i := i + 1;
    }
    assert segs[..i] == segs;
    r := Ok(PathScan(sawPgSys, sawDatum, sawOption, sawBox, inner));
  }

  /** The loop that renames every lifetime argument of the path to `'static`. */
  method RewriteLifetimes(segs: seq<Segment>) returns (out: seq<Segment>)
    ensures out == StaticPath(segs)
  {
    out := [];
    var i := 0;
    while i < |segs|
      invariant 0 <= i <= |segs|
      invariant |out| == i && forall k :: 0 <= k < i ==> out[k] == StaticSegment(segs[k])
    {
      var seg := segs[i];
      if seg.arguments.AngleBracketed? {
        var args := seg.arguments.args;
        var rewritten: seq<GenericArgument> := [];
        var j := 0;
        while j < |args|
          invariant 0 <= j <= |args|
          invariant |rewritten| == j && forall k :: 0 <= k < j ==> rewritten[k] == StaticArgument(args[k])
        {
          var arg := args[j];
          if arg.LifetimeArg? {
            arg := LifetimeArg(Lifetime("static"));
          }
          rewritten := rewritten + [arg];
          j := j + 1;
        }
        seg := Segment(seg.ident, AngleBracketed(rewritten));
      }
      out := out + [seg];
      i := i + 1;
    }
  }

  /** `Returning::try_from` */
  method TryFrom(rt: ReturnType) returns (r: Result<Returning, ClassifyError>)
    ensures r == Classify(rt)
  {
    match rt {
      case Default =>
        r := Ok(Void);
      case Returns(t) =>
        var ty := AnonymizeLifetimes(t);
        match ty {
          case ImplTrait(bs) =>
            r := ParseTraitBounds(bs);
          case TraitObject(bs) =>
            r := ParseTraitBounds(bs);
          case Path(segs) =>
            var scan := ScanSegments(segs);
            if scan.Err? {
              return Err(scan.error);
            }
            var st := scan.value;
            if (st.sawDatum && st.sawPgSys) || (st.sawDatum && |segs| == 1) {
              r := Ok(Trigger);
            } else if st.inner.Some? {
              r := Ok(st.inner.value);
            } else {
              var staticSegs := RewriteLifetimes(segs);
              r := Ok(Type(Path(staticSegs), None));
            }
          case Reference(lt, m, elem) =>
            var lifetime := lt;
            if lifetime.Some? {
              lifetime := Some(Lifetime("static"));
            }
            r := Ok(Type(Reference(lifetime, m, elem), None));
          case Tuple(elems) =>
            if elems == [] {
              r := Ok(Type(ty, None));
            } else {
              r := ParseTypeTuple(elems);
            }
          case Macro(mpath, toks) =>
            r := ParseTypeMacro(mpath, toks);
          case OtherType =>
            r := Err(UnknownReturnType);
        }
    }
  }

  // ---------------------------------------------------------------------------
  // Properties of the walk

  lemma {:induction false} ScanPathErrPersists(segs: seq<Segment>, k: nat)
    requires k <= |segs| && ScanPath(segs[..k]).Err?
    ensures ScanPath(segs) == ScanPath(segs[..k])
    decreases |segs| - k
  {
    if k < |segs| {
      var next := segs[..k + 1];
      assert next[..|next| - 1] == segs[..k];
      ScanPathErrPersists(segs, k + 1);
    } else {
      assert segs[..k] == segs;
    }
  }

  /** The flags say exactly which identifiers occur among the segments. */
  lemma {:induction false} ScanPathFlags(segs: seq<Segment>)
    requires ScanPath(segs).Ok?
    ensures ScanPath(segs).value.sawDatum <==> HasSegment(segs, "Datum")
    ensures ScanPath(segs).value.sawPgSys <==> HasSegment(segs, "pg_sys")
    ensures ScanPath(segs).value.sawOption || ScanPath(segs).value.sawBox
            <==> exists w :: 0 <= w < |segs| && IsWrapper(segs[w])
    ensures ScanPath(segs).value.inner.Some? ==> !ScanPath(segs).value.inner.value.Trigger?
    decreases |segs|
  {
    if segs != [] {
      var init := segs[..|segs| - 1];
      ScanPathFlags(init);
      forall w | 0 <= w < |init| ensures init[w] == segs[w] { }
    }
  }

  /** A wrapped trait argument before the last segment is one of the path without that segment. */
  lemma WrappedTraitPrefix(segs: seq<Segment>, n: nat)
    requires n <= |segs|
    ensures forall j :: 0 <= j < n ==> (WrappedTraitAt(segs, j) <==> WrappedTraitAt(segs[..n], j))
  {
    forall j | 0 <= j < n ensures WrappedTraitAt(segs, j) <==> WrappedTraitAt(segs[..n], j) {
      if WrappedTraitAt(segs, j) {
        var w :| 0 <= w <= j && IsWrapper(segs[w]);
        assert IsWrapper(segs[..n][w]);
      }
      if WrappedTraitAt(segs[..n], j) {
        var w :| 0 <= w <= j && IsWrapper(segs[..n][w]);
        assert IsWrapper(segs[w]);
      }
    }
  }

  /** The last segment is a wrapped trait argument exactly when the walk so far, or the segment
      itself, has seen a wrapper and the segment carries an `impl`/`dyn` argument. */
  lemma WrappedTraitLast(segs: seq<Segment>)
    requires |segs| > 0 && ScanPath(segs[..|segs| - 1]).Ok?
    ensures var st := ScanPath(segs[..|segs| - 1]).value;
      WrappedTraitAt(segs, |segs| - 1) <==>
        InnerTraitBounds(segs[|segs| - 1]).Some? && (st.sawOption || st.sawBox || IsWrapper(segs[|segs| - 1]))
  {
    var n := |segs| - 1;
    var init := segs[..n];
    var st := ScanPath(init).value;
    ScanPathFlags(init);
    if WrappedTraitAt(segs, n) {
      var w :| 0 <= w <= n && IsWrapper(segs[w]);
      if w < n { assert IsWrapper(init[w]); }
    }
    if st.sawOption || st.sawBox {
      var w :| 0 <= w < |init| && IsWrapper(init[w]);
      assert IsWrapper(segs[w]);
    }
  }

  predicate ParsesOk(bounds: Option<seq<Bound>>)
  {
    bounds.Some? ==> ParseTraitBounds(bounds.value).Ok?
  }

  /** The walk fails exactly when the argument of some wrapped `impl`/`dyn` fails to classify. */
  lemma {:induction false} ScanPathOkIff(segs: seq<Segment>)
    ensures ScanPath(segs).Ok? <==>
      forall j :: WrappedTraitAt(segs, j) ==> ParsesOk(InnerTraitBounds(segs[j]))
    decreases |segs|
  {
    if segs != [] {
      var n := |segs| - 1;
      var init := segs[..n];
      ScanPathOkIff(init);
      WrappedTraitPrefix(segs, n);
      if ScanPath(init).Ok? {
        WrappedTraitLast(segs);
      } else {
        var j :| WrappedTraitAt(init, j) && !ParsesOk(InnerTraitBounds(init[j]));
        assert WrappedTraitAt(segs, j) && init[j] == segs[j];
      }
    }
  }

  /** One step of the walk replaces the inner shape exactly at a wrapped `impl`/`dyn` argument. */
  lemma ScanStepInner(segs: seq<Segment>)
    requires |segs| > 0 && ScanPath(segs).Ok?
    ensures ScanPath(segs[..|segs| - 1]).Ok?
    ensures WrappedTraitAt(segs, |segs| - 1) ==>
      ScanPath(segs).value.inner.Some?
      && ParseTraitBounds(InnerTraitBounds(segs[|segs| - 1]).value) == Ok(ScanPath(segs).value.inner.value)
    ensures !WrappedTraitAt(segs, |segs| - 1) ==>
      ScanPath(segs).value.inner == ScanPath(segs[..|segs| - 1]).value.inner
  {
    WrappedTraitLast(segs);
  }

  /** The walk keeps no inner shape exactly when no argument is a wrapped `impl`/`dyn`. */
  lemma {:induction false} ScanPathInnerNone(segs: seq<Segment>)
    requires ScanPath(segs).Ok?
    ensures ScanPath(segs).value.inner.None? <==> forall j :: !WrappedTraitAt(segs, j)
    decreases |segs|
  {
    if segs != [] {
      var n := |segs| - 1;
      ScanStepInner(segs);
      ScanPathInnerNone(segs[..n]);
      WrappedTraitPrefix(segs, n);
    }
  }

  /** Segment `j` is the last wrapped `impl`/`dyn` argument of the path. */
  ghost predicate LastWrappedTrait(segs: seq<Segment>, j: int)
  {
    WrappedTraitAt(segs, j) && forall k :: j < k < |segs| ==> !WrappedTraitAt(segs, k)
  }

  lemma LastWrappedTraitExtend(segs: seq<Segment>, j: int)
    requires |segs| > 0 && LastWrappedTrait(segs[..|segs| - 1], j)
    requires !WrappedTraitAt(segs, |segs| - 1)
    ensures LastWrappedTrait(segs, j)
  {
    WrappedTraitPrefix(segs, |segs| - 1);
  }

  /** Otherwise the walk keeps the shape of the last wrapped `impl`/`dyn` argument. */
  lemma {:induction false} ScanPathInnerLast(segs: seq<Segment>)
    requires ScanPath(segs).Ok? && ScanPath(segs).value.inner.Some?
    ensures exists j ::
      LastWrappedTrait(segs, j) && ParseTraitBounds(InnerTraitBounds(segs[j]).value) == Ok(ScanPath(segs).value.inner.value)
    decreases |segs|
  {
    var n := |segs| - 1;
    ScanStepInner(segs);
    if !WrappedTraitAt(segs, n) {
      var init := segs[..n];
      ScanPathInnerLast(init);
      var j :| LastWrappedTrait(init, j)
        && ParseTraitBounds(InnerTraitBounds(init[j]).value) == Ok(ScanPath(segs).value.inner.value);
      LastWrappedTraitExtend(segs, j);
      assert init[j] == segs[j];
    } else {
      assert LastWrappedTrait(segs, n);
    }
  }

  // ---------------------------------------------------------------------------
  // Properties of the classifier

  /** A path is classified as `Trigger` exactly when it is `pg_sys::Datum` (a `Datum` segment
      with a `pg_sys` segment, or `Datum` alone) and the walk did not fail; nothing else is. */
  lemma ClassifyTriggerIff(rt: ReturnType)
    ensures Classify(rt) == Ok(Trigger) <==>
      rt.Returns? && rt.ty.Path? && IsDatumPath(rt.ty.segments) && ScanPath(rt.ty.segments).Ok?
  {
    if rt.Returns? && rt.ty.Path? && ScanPath(rt.ty.segments).Ok? {
      ScanPathFlags(rt.ty.segments);
    }
  }

  /** `Datum` takes precedence over an `Option<impl ..>`/`Box<dyn ..>` shape found earlier:
      when no wrapped trait fails to classify, a `Datum` path is a `Trigger`. */
  lemma TriggerPrecedence(segs: seq<Segment>)
    requires IsDatumPath(segs)
    requires forall j :: WrappedTraitAt(segs, j) ==> ParsesOk(InnerTraitBounds(segs[j]))
    ensures Classify(Returns(Path(segs))) == Ok(Trigger)
  {
    ScanPathOkIff(segs);
    ScanPathFlags(segs);
  }

  /** A path that is not `Datum` takes the shape of its last wrapped `impl`/`dyn` argument;
      with none, it is a plain `Type` whose lifetimes are all `'static`. */
  lemma ClassifyNonDatumPath(segs: seq<Segment>)
    requires !IsDatumPath(segs)
    requires ScanPath(segs).Ok?
    ensures ScanPath(segs).value.inner.Some? ==> Classify(Returns(Path(segs))) == Ok(ScanPath(segs).value.inner.value)
    ensures (forall j :: !WrappedTraitAt(segs, j)) ==> Classify(Returns(Path(segs))) == Ok(Type(Path(StaticPath(segs)), None))
  {
    ScanPathFlags(segs);
    ScanPathInnerNone(segs);
  }

  /** `Option<impl Trait>` and `Box<dyn Trait>` unwrap one level and classify the bound. */
  lemma ClassifyWrappedTrait(wrapper: string, inner: Ty, rest: seq<GenericArgument>)
    requires wrapper == "Option" || wrapper == "Box"
    requires inner.ImplTrait? || inner.TraitObject?
    ensures Classify(Returns(Path([Segment(wrapper, AngleBracketed([TypeArg(inner)] + rest))])))
            == ParseTraitBounds(inner.bounds)
  {
    var segs := [Segment(wrapper, AngleBracketed([TypeArg(inner)] + rest))];
    assert segs[..0] == [];
    assert InnerTraitBounds(segs[0]) == Some(inner.bounds);
    assert ScanPath(segs) == ScanSegment(InitialScan, segs[0]);
  }

  /** The iterator shapes: `Iterator<Item = (..)>` gives one column per element, in order;
      `Item = Path` and `Item = &Path` give `SetOf` with no `sql`; anything else fails. */
  lemma IteratorShapes(prefix: seq<Segment>, binding: string, item: Ty, rest: seq<GenericArgument>)
    ensures var r := ParseTraitBounds([TraitBound(prefix + [Segment("Iterator", AngleBracketed([Binding(binding, item)] + rest))])]);
      && (item.Tuple? && r.Ok? ==>
            (r.value.Iterated? && |r.value.items| == |item.elems|
             && forall i :: 0 <= i < |item.elems| ==> TupleItem(item.elems[i]) == Ok(r.value.items[i])))
      && (item.Path? ==> r == Ok(SetOf(item.segments, None)))
      && (item.Reference? && item.elem.Path? ==> r == Ok(SetOf(item.elem.segments, None)))
      && (!item.Tuple? && !item.Path? && !(item.Reference? && item.elem.Path?) ==> r == Err(Unsupported))
  {
    var path := prefix + [Segment("Iterator", AngleBracketed([Binding(binding, item)] + rest))];
    assert path[|path| - 1] == Segment("Iterator", AngleBracketed([Binding(binding, item)] + rest));
    if item.Tuple? {
      TupleItemsFacts(item.elems);
    }
  }

  /** A trait other than `Iterator` is not supported. */
  lemma OnlyIteratorBounds(path: seq<Segment>)
    requires |path| > 0 && path[|path| - 1].ident != "Iterator"
    ensures ParseTraitBounds([TraitBound(path)]) == Err(Unsupported)
  {
  }

  /** The columns of a tuple: one per element in declaration order; the tuple fails exactly when
      an element does, and then with the first failing element's error. */
  lemma {:induction false} TupleItemsFacts(elems: seq<Ty>)
    ensures TupleItems(elems).Ok? <==> forall i :: 0 <= i < |elems| ==> TupleItem(elems[i]).Ok?
    ensures TupleItems(elems).Ok? ==>
      |TupleItems(elems).value| == |elems|
      && forall i :: 0 <= i < |elems| ==> TupleItem(elems[i]) == Ok(TupleItems(elems).value[i])
    ensures TupleItems(elems).Err? ==>
      exists i :: 0 <= i < |elems| && TupleItem(elems[i]) == Err(TupleItems(elems).error)
        && forall k :: 0 <= k < i ==> TupleItem(elems[k]).Ok?
    decreases |elems|
  {
    if elems != [] {
      TupleItemsFacts(elems[1..]);
      assert forall i :: 1 <= i < |elems| ==> elems[i] == elems[1..][i - 1];
      if TupleItems(elems).Err? && TupleItem(elems[0]).Ok? {
        var i :| 0 <= i < |elems[1..]| && TupleItem(elems[1..][i]) == Err(TupleItems(elems).error)
          && forall k :: 0 <= k < i ==> TupleItem(elems[1..][k]).Ok?;
        assert TupleItem(elems[i + 1]) == Err(TupleItems(elems).error);
      }
    }
  }

  /** A returned tuple: the empty tuple is a plain `Type`, any other is `Iterated` with one
      column per element in declaration order. */
  lemma ClassifyTuple(elems: seq<Ty>)
    ensures elems == [] ==> Classify(Returns(Tuple(elems))) == Ok(Type(Tuple([]), None))
    ensures elems != [] && Classify(Returns(Tuple(elems))).Ok? ==>
      var r := Classify(Returns(Tuple(elems))).value;
      r.Iterated? && |r.items| == |elems|
      && forall i :: 0 <= i < |elems| ==> TupleItem(elems[i]) == Ok(r.items[i])
  {
    TupleItemsFacts(elems);
  }

  /** The three kinds of column: `name!(n, T)`, `composite_type!(e)` and any other type. */
  lemma TupleItemKinds(n: string, t: Ty, e: string, other: Ty)
    requires !t.Macro? && !other.Macro?
    ensures TupleItem(Macro([Simple("name")], [IdentToken(n), CommaToken, TypeToken(t)]))
            == Ok(IteratedItem(t, Some(n), None))
    ensures TupleItem(Macro([Simple("name")], [IdentToken(n), CommaToken,
                                                TypeToken(Macro([Simple("composite_type")], [LiteralToken(e)]))]))
            == Ok(IteratedItem(Macro([Simple("composite_type")], [LiteralToken(e)]), Some(n), Some(LiteralExpr(e))))
    ensures TupleItem(Macro([Simple("composite_type")], [LiteralToken(e)]))
            == Ok(IteratedItem(PgHeapTupleType, None, Some(LiteralExpr(e))))
    ensures TupleItem(other) == Ok(IteratedItem(other, None, None))
  {
    var toks := [IdentToken(n), CommaToken, TypeToken(t)];
    assert toks[2..] == [TypeToken(t)];
    var comp := Macro([Simple("composite_type")], [LiteralToken(e)]);
    var toks2 := [IdentToken(n), CommaToken, TypeToken(comp)];
    assert toks2[2..] == [TypeToken(comp)];
  }

  /** Every keyword `name!` accepts as a column name is taken as written; other keywords are not. */
  lemma NameMacroKeywords(word: string, t: Ty)
    requires !t.Macro?
    ensures word in NameKeywords ==>
      ParseNameMacro([KeywordToken(word), CommaToken, TypeToken(t)]) == Ok(NameMacro(word, t, None))
    ensures word !in NameKeywords ==>
      ParseNameMacro([KeywordToken(word), CommaToken, TypeToken(t)]) == Err(MalformedMacro)
  {
    var toks := [KeywordToken(word), CommaToken, TypeToken(t)];
    assert toks[2..] == [TypeToken(t)];
  }

  /** The shapes that need no walk: no `->`, references, `impl`/`dyn`, macros, other kinds. */
  lemma ClassifySimpleShapes(t: Ty)
    ensures Classify(Default) == Ok(Void)
    ensures t.Reference? ==>
      Classify(Returns(t)) == Ok(Type(Reference(if t.lifetime.Some? then Some(Lifetime("static")) else None, t.mutable, t.elem), None))
    ensures t.ImplTrait? || t.TraitObject? ==> Classify(Returns(t)) == ParseTraitBounds(t.bounds)
    ensures t.Macro? ==> (Classify(Returns(t)).Ok? <==> IsMacroNamed(t, "composite_type") && ParseExpr(t.tokens).Some?)
    ensures t.Macro? && Classify(Returns(t)).Ok? ==> Classify(Returns(t)).value.Type? && Classify(Returns(t)).value.sql.Some?
    ensures t.OtherType? ==> Classify(Returns(t)) == Err(UnknownReturnType)
  {
  }

  /** The declared return of a set-returning function written
      `Result<TableIterator<'static, (..)>, spi::Error>`, for any tuple of columns. */
  function TableIteratorResult(columns: seq<Ty>): Ty
  {
    Path([Segment("Result", AngleBracketed([
      TypeArg(Path([Segment("TableIterator", AngleBracketed([LifetimeArg(Lifetime("static")), TypeArg(Tuple(columns))]))])),
      TypeArg(Path([Segment("spi", NoArguments), Segment("Error", NoArguments)]))]))])
  }

  /** Such a return has no `Option`/`Box` wrapper around an `impl`/`dyn` trait, so it classifies as
      a plain type, not as iterated columns, whatever the tuple holds. */
  lemma TableIteratorResultIsPlain(columns: seq<Ty>)
    ensures Classify(Returns(TableIteratorResult(columns))).Ok?
    ensures Classify(Returns(TableIteratorResult(columns))).value.Type?
  {
    var segs := [Segment("Result", AngleBracketed([
      TypeArg(Path([Segment("TableIterator", AngleBracketed([LifetimeArg(Lifetime("static")), TypeArg(Tuple(columns))]))])),
      TypeArg(Path([Segment("spi", NoArguments), Segment("Error", NoArguments)]))]))];
    assert ScanPath(segs[..0]) == Ok(InitialScan);
    assert ScanPath(segs) == ScanSegment(InitialScan, segs[0]);
  }
}
