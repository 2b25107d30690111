/** The traversal protocol of libclang's `clang_visitChildren`, which the
    analyser relies on but does not implement. It is stated here as an
    assumption about the library:
    - the callback sees each child of the parent in document order, never the
      parent itself, together with the client data;
    - Continue moves on to the next sibling without descending;
    - Recurse descends into the child's own children with the same callback
      and the same client data, then moves on to the next sibling;
    - Break ends the traversal: no further cursor is visited, at this level or
      at any enclosing level reached through Recurse.
    The client data, which the callbacks update through a pointer, is threaded
    through the walk as a value of type S. */
module ClangVisit {
  import opened Ast

  datatype ChildVisitResult = Break | Continue | Recurse

  /** What a traversal leaves behind: whether a callback broke it off, and the
      final client data. */
  datatype Walk<S> = Walk(broken: bool, data: S)

  type Visitor<!S> = (Cursor, S) -> (ChildVisitResult, S)

  /** A callback that answers Continue or Recurse to every cursor. */
  ghost predicate NeverBreaks<S(!new)>(visit: Visitor<S>)
  {
    forall c, d :: visit(c, d).0 != Break
  }

  /** `clang_visitChildren(parent, visit, &data)`: a parent without children
      leaves the client data as it was, and only a Break verdict can end
      the traversal early. */
  function VisitChildren<S(!new)>(parent: Cursor, visit: Visitor<S>, data: S): (w: Walk<S>)
    ensures parent.children == [] ==> w == Walk(false, data)
    ensures NeverBreaks(visit) ==> !w.broken
  {
    VisitSiblings(parent.children, visit, data)
  }

  /** Visiting a run of siblings, the first one first. */
  function VisitSiblings<S(!new)>(cs: seq<Cursor>, visit: Visitor<S>, data: S): (w: Walk<S>)
    ensures cs == [] ==> w == Walk(false, data)
    ensures NeverBreaks(visit) ==> !w.broken
    decreases SizeSeq(cs)
  {
    if cs == [] then Walk(false, data)
    else
      SizeDecreases(cs);
      var (verdict, data1) := visit(cs[0], data);
      match verdict
      case Break => Walk(true, data1)
      case Continue => VisitSiblings(cs[1..], visit, data1)
      case Recurse =>
        var inner := VisitSiblings(cs[0].children, visit, data1);
        if inner.broken then inner else VisitSiblings(cs[1..], visit, inner.data)
  }

  /** Visiting `a + b` visits `a`, then, unless a callback broke off, `b` from
      the client data `a` left behind. */
  lemma {:induction false} VisitSiblingsConcat<S(!new)>(a: seq<Cursor>, b: seq<Cursor>, visit: Visitor<S>, data: S)
    ensures var wa := VisitSiblings(a, visit, data);
            VisitSiblings(a + b, visit, data) ==
              if wa.broken then wa else VisitSiblings(b, visit, wa.data)
    decreases |a|
  {
    if a == [] {
      assert a + b == b;
    } else {
      assert (a + b)[0] == a[0];
      assert (a + b)[1..] == a[1..] + b;
      var (verdict, data1) := visit(a[0], data);
      match verdict
      case Break =>
      case Continue =>
        VisitSiblingsConcat(a[1..], b, visit, data1);
      case Recurse =>
        var inner := VisitSiblings(a[0].children, visit, data1);
        if !inner.broken {
          VisitSiblingsConcat(a[1..], b, visit, inner.data);
        }
    }
  }

  /** One step of a walk whose first callback answers Recurse. */
  lemma VisitSiblingsRecurse<S(!new)>(cs: seq<Cursor>, visit: Visitor<S>, data: S)
    requires cs != [] && visit(cs[0], data).0 == Recurse
    ensures var inner := VisitSiblings(cs[0].children, visit, visit(cs[0], data).1);
            VisitSiblings(cs, visit, data) ==
              if inner.broken then inner else VisitSiblings(cs[1..], visit, inner.data)
  {
  }
}
