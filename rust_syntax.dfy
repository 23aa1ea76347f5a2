/** The fragment of Rust type syntax (the `syn` crate's `Type`, `Path`, `GenericArgument`,
    `TypeParamBound` and macro token streams) that the return-shape classifier inspects.
    Kinds of type the classifier never looks into are collapsed into `OtherType`. */
module RustSyntax {
  import opened Wrappers

  /** A lifetime `'ident`; `ident` is stored without the apostrophe, as in `syn::Lifetime`. */
  datatype Lifetime = Lifetime(ident: string)

  datatype Ty =
    | Path(segments: seq<Segment>)
    | Reference(lifetime: Option<Lifetime>, mutable: bool, elem: Ty)
    | Tuple(elems: seq<Ty>)
      /** `path!(tokens)` in type position */
    | Macro(macroPath: seq<Segment>, tokens: seq<Token>)
    | ImplTrait(bounds: seq<Bound>)
    | TraitObject(bounds: seq<Bound>)
      /** arrays, slices, pointers, `fn` types, `!`, `_`, parenthesised and verbatim types */
    | OtherType

  datatype Segment = Segment(ident: string, arguments: PathArguments)

  datatype PathArguments =
    | NoArguments
    | AngleBracketed(args: seq<GenericArgument>)
    | Parenthesized

  datatype GenericArgument =
    | LifetimeArg(lifetime: Lifetime)
    | TypeArg(ty: Ty)
      /** `Name = Ty`, as in `Iterator<Item = T>` */
    | Binding(name: string, boundTy: Ty)
    | ConstArg
    | ConstraintArg

  datatype Bound = TraitBound(path: seq<Segment>) | LifetimeBound(lifetime: Lifetime)

  /** Tokens of a macro body: an identifier that is not a keyword, a keyword, a comma, a
      literal, or a complete type (standing for the tokens a type is written with). */
  datatype Token =
    | IdentToken(name: string)
    | KeywordToken(word: string)
    | CommaToken
    | LiteralToken(text: string)
    | TypeToken(ty: Ty)

  /** The expression inside `composite_type!(...)`: a literal or a path. */
  datatype Expr = LiteralExpr(text: string) | PathExpr(name: string)

  /** `syn::ReturnType`: no `->` at all, or `-> Ty`. */
  datatype ReturnType = Default | Returns(ty: Ty)

  function Simple(ident: string): Segment
  {
    Segment(ident, NoArguments)
  }

  /** Parse a macro body as one `syn::Type`, requiring the whole body to be consumed. */
  function ParseType(tokens: seq<Token>): (r: Option<Ty>)
    ensures r.Some? ==> |tokens| == 1
  {
    if |tokens| != 1 then None
    else match tokens[0]
      case TypeToken(t) => Some(t)
      case IdentToken(n) => Some(Path([Simple(n)]))
      case _ => None
  }

  /** Parse a macro body as one `syn::Expr`, requiring the whole body to be consumed. */
  function ParseExpr(tokens: seq<Token>): (r: Option<Expr>)
    ensures r.Some? ==> |tokens| == 1
  {
    if |tokens| != 1 then None
    else match tokens[0]
      case LiteralToken(t) => Some(LiteralExpr(t))
      case IdentToken(n) => Some(PathExpr(n))
      case _ => None
  }
}
