/**
 * The helpers of PsiUtils.kt over an abstract program structure: binary
 * names of classes, following constant references to string literals in
 * annotation values, and a short-circuiting counter.
 */
module PsiUtils {
  import opened Common

  // ---------------------------------------------------------------------------
  // Binary names
  // ---------------------------------------------------------------------------

  /**
   * A class declaration: its qualified name and simple name (both absent for
   * an anonymous class) and the nearest class that encloses it.
   */
  datatype PsiClass = PsiClass(qualifiedName: Option<string>, name: Option<string>, enclosing: Option<PsiClass>)

  /**
   * `dollarQualifiedName`: the binary name of a member class is the binary
   * name of its enclosing class, `$`, and its simple name (section 13.1 of
   * The Java Language Specification); whenever a part is missing the
   * class's own qualified name is used instead.
   */
  function DollarQualifiedName(c: PsiClass): (r: Option<string>)
    ensures c.enclosing.None? ==> r == c.qualifiedName
    ensures r != c.qualifiedName ==> r.Some? && c.enclosing.Some? && c.name.Some?
  {
    match c.enclosing
    case None => c.qualifiedName
    case Some(parent) =>
      match DollarQualifiedName(parent)
      case None => c.qualifiedName
      case Some(parentName) =>
        match c.name
        case None => c.qualifiedName
        case Some(selfName) => Some(parentName + "$" + selfName)
  }

  /** The outermost class enclosing `c`, or `c` itself. */
  function Outermost(c: PsiClass): PsiClass {
    match c.enclosing
    case None => c
    case Some(parent) => Outermost(parent)
  }

  /** Whether every class on the chain below the outermost one has a simple name. */
  predicate NamedChain(c: PsiClass) {
    match c.enclosing
    case None => true
    case Some(parent) => c.name.Some? && NamedChain(parent)
  }

  /** `$n1$n2...$nk`: the simple names from just below the outermost class down to `c`. */
  function NestedSuffix(c: PsiClass): string
    requires NamedChain(c)
  {
    match c.enclosing
    case None => ""
    case Some(parent) => NestedSuffix(parent) + "$" + c.name.value
  }

  /** A class without an enclosing class gets its plain qualified name. */
  lemma TopLevelName(c: PsiClass)
    requires c.enclosing.None?
    ensures DollarQualifiedName(c) == c.qualifiedName
  {
  }

  /**
   * When every nested class on the chain has a simple name and the outermost
   * class has a qualified name `q`, the binary name is `q` followed by the
   * `$`-separated simple names down the chain.
   */
  lemma {:induction false} BinaryNameOfChain(c: PsiClass, q: string)
    requires NamedChain(c) && Outermost(c).qualifiedName == Some(q)
    ensures DollarQualifiedName(c) == Some(q + NestedSuffix(c))
  {
    match c.enclosing
    case None =>
      assert q + "" == q;
    case Some(parent) =>
      BinaryNameOfChain(parent, q);
      assert q + NestedSuffix(parent) + "$" + c.name.value == q + (NestedSuffix(parent) + "$" + c.name.value);
  }

  /**
   * A nested class whose own simple name is missing (an anonymous class), or
   * whose enclosing class has no binary name, falls back to its qualified name.
   */
  lemma NamelessFallsBack(c: PsiClass)
    requires c.enclosing.Some?
    requires c.name.None? || DollarQualifiedName(c.enclosing.value).None?
    ensures DollarQualifiedName(c) == c.qualifiedName
  {
  }

  /**
   * A binary name that is not the fallback always ends in `$` and the
   * class's simple name, after the enclosing class's binary name.
   */
  lemma {:induction false} BinaryNameExtendsParent(c: PsiClass)
    requires c.enclosing.Some? && DollarQualifiedName(c) != c.qualifiedName
    ensures c.name.Some? && DollarQualifiedName(c.enclosing.value).Some?
    ensures DollarQualifiedName(c) == Some(DollarQualifiedName(c.enclosing.value).value + "$" + c.name.value)
  {
    match DollarQualifiedName(c.enclosing.value)
    case None =>
    case Some(_) =>
  }

  // ---------------------------------------------------------------------------
  // Following constants to literals
  // ---------------------------------------------------------------------------

  type ElementId = nat

  /** The program elements the constant follower distinguishes. */
  datatype PsiElement =
    | ReferenceExpression(resolvesTo: Option<ElementId>)
    | Field(initializer: Option<ElementId>)
    | LiteralExpression(text: string)
    | ArrayInitializer(initializers: seq<ElementId>)
    | OtherElement

  /** The elements of the program by identity; an identity without an entry is an element of no interest. */
  type PsiGraph = map<ElementId, PsiElement>

  function ElementAt(g: PsiGraph, v: Option<ElementId>): PsiElement {
    if v.Some? && v.value in g then g[v.value] else OtherElement
  }

  predicate IsReference(g: PsiGraph, v: Option<ElementId>) {
    ElementAt(g, v).ReferenceExpression?
  }

  /** One turn of the loop: resolve the reference; a field stands for its initializer. */
  function Next(g: PsiGraph, v: Option<ElementId>): Option<ElementId>
    requires IsReference(g, v)
  {
    var resolved := ElementAt(g, v).resolvesTo;
    if ElementAt(g, resolved).Field? then ElementAt(g, resolved).initializer else resolved
  }

  /**
   * Where the loop stops, if it stops within `fuel` turns; None when the
   * fuel runs out (the loop has no cycle guard, so on a cycle it never stops).
   */
  function Follow(g: PsiGraph, v: Option<ElementId>, fuel: nat): Option<Option<ElementId>>
    decreases fuel
  {
    if !IsReference(g, v) then Some(v)
    else if fuel == 0 then None
    else Follow(g, Next(g, v), fuel - 1)
  }

  datatype LiteralValue = LiteralValue(literal: ElementId, value: string)

  /** A literal and its unquoted text; no literal at the end of the chain; or the fuel ran out. */
  datatype Resolution = Found(found: LiteralValue) | NotFound | OutOfFuel

  /**
   * IntelliJ's `StringUtil.unquoteString`: drops one pair of matching
   * surrounding quotes (`"` or `'`), otherwise returns the text unchanged.
   */
  function UnquoteString(s: string): string {
    if |s| > 1 && (s[0] == '"' || s[0] == '\'') && s[0] == s[|s| - 1] then s[1..|s| - 1] else s
  }

  lemma UnquoteQuoted(body: string, quote: char)
    requires quote == '"' || quote == '\''
    ensures UnquoteString([quote] + body + [quote]) == body
  {
    assert ([quote] + body + [quote])[1..|body| + 1] == body;
  }

  /** The value of `resolvedLiteralValue` for the element `v` (None is Kotlin's null). */
  function LiteralResolution(g: PsiGraph, v: Option<ElementId>, fuel: nat): (r: Resolution)
    ensures r.Found? ==> r.found.literal in g && g[r.found.literal].LiteralExpression?
    ensures r.Found? ==> r.found.value == UnquoteString(g[r.found.literal].text)
  {
    match Follow(g, v, fuel)
    case None => OutOfFuel
    case Some(last) =>
      if ElementAt(g, last).LiteralExpression? then Found(LiteralValue(last.value, UnquoteString(ElementAt(g, last).text)))
      else NotFound
  }

  /** `PsiElement.resolvedLiteralValue`: the while loop, bounded by `fuel` turns. */
  method ResolvedLiteralValue(g: PsiGraph, start: Option<ElementId>, fuel: nat) returns (r: Resolution)
    ensures r == LiteralResolution(g, start, fuel)
  {
    var value := start;
    var left := fuel;
    while IsReference(g, value)
      invariant Follow(g, value, left) == Follow(g, start, fuel)
      decreases left
    {
      if left == 0 {
        return OutOfFuel;
      }
      var resolved := ElementAt(g, value).resolvesTo;
      value := if ElementAt(g, resolved).Field? then ElementAt(g, resolved).initializer else resolved;
      left := left - 1;
    }
    var element := ElementAt(g, value);
    if !element.LiteralExpression? {
      return NotFound;
    }
    r := Found(LiteralValue(value.value, UnquoteString(element.text)));
  }

  /** Enough fuel is only an upper bound: more fuel gives the same answer. */
  lemma {:induction false} FollowIsFuelIndependent(g: PsiGraph, v: Option<ElementId>, fuel: nat, more: nat)
    requires Follow(g, v, fuel).Some?
    requires fuel <= more
    ensures Follow(g, v, more) == Follow(g, v, fuel)
    decreases fuel
  {
    if IsReference(g, v) {
      FollowIsFuelIndependent(g, Next(g, v), fuel - 1, more - 1);
    }
  }

  /** A reference that does not resolve yields no literal. */
  lemma UnresolvedReferenceIsNotFound(g: PsiGraph, id: ElementId, fuel: nat)
    requires id in g && g[id] == ReferenceExpression(None)
    requires fuel > 0
    ensures LiteralResolution(g, Some(id), fuel) == NotFound
  {
    assert Follow(g, Some(id), fuel) == Follow(g, None, fuel - 1) == Some(None);
  }

  /**
   * The chains in `g` are acyclic, witnessed by a rank that every turn of the
   * loop strictly lowers.
   */
  ghost predicate RankedChains(g: PsiGraph, rank: map<ElementId, nat>) {
    forall id :: id in g && g[id].ReferenceExpression? ==>
      && id in rank
      && var next := Next(g, Some(id));
        IsReference(g, next) ==> next.value in rank && rank[next.value] < rank[id]
  }

  /** On acyclic chains the loop terminates: fuel above the start's rank suffices. */
  lemma {:induction false} RankedChainsTerminate(g: PsiGraph, rank: map<ElementId, nat>, id: ElementId, fuel: nat)
    requires RankedChains(g, rank)
    requires id in rank && fuel > rank[id]
    ensures LiteralResolution(g, Some(id), fuel) != OutOfFuel
  {
    RankedFollowStops(g, rank, Some(id), fuel);
  }

  lemma {:induction false} RankedFollowStops(g: PsiGraph, rank: map<ElementId, nat>, v: Option<ElementId>, fuel: nat)
    requires RankedChains(g, rank)
    requires IsReference(g, v) ==> v.value in rank && fuel > rank[v.value]
    ensures Follow(g, v, fuel).Some?
    decreases fuel
  {
    if IsReference(g, v) {
      RankedFollowStops(g, rank, Next(g, Some(v.value)), fuel - 1);
    }
  }

  /**
   * Two constants initialized with references to each other: the loop never
   * reaches a literal, whatever the fuel.
   */
  lemma {:induction false} MutualConstantsDiverge(g: PsiGraph, refA: ElementId, fieldA: ElementId, refB: ElementId, fieldB: ElementId, fuel: nat)
    requires refA in g && g[refA] == ReferenceExpression(Some(fieldB))
    requires refB in g && g[refB] == ReferenceExpression(Some(fieldA))
    requires fieldA in g && g[fieldA] == Field(Some(refA))
    requires fieldB in g && g[fieldB] == Field(Some(refB))
    ensures Follow(g, Some(refA), fuel).None? && Follow(g, Some(refB), fuel).None?
    ensures LiteralResolution(g, Some(refA), fuel) == OutOfFuel
    decreases fuel
  {
    if fuel > 0 {
      assert Next(g, Some(refA)) == Some(refB);
      assert Next(g, Some(refB)) == Some(refA);
      MutualConstantsDiverge(g, refA, fieldA, refB, fieldB, fuel - 1);
    }
  }

  /** The resolvable elements of `ids`, in order; None if some element's loop ran out of fuel. */
  function ResolveAll(g: PsiGraph, ids: seq<ElementId>, fuel: nat): (r: Option<seq<LiteralValue>>)
    ensures ids == [] ==> r == Some([])
    ensures r.Some? ==> |r.value| <= |ids|
  {
    if ids == [] then Some([])
    else
      match ResolveAll(g, ids[1..], fuel)
      case None => None
      case Some(rest) =>
        match LiteralResolution(g, Some(ids[0]), fuel)
        case OutOfFuel => None
        case NotFound => Some(rest)
        case Found(lit) => Some([lit] + rest)
  }

  /**
   * `resolvedLiteralValues`: for an array initializer the resolvable elements
   * in order (`mapNotNull`), for any other value at most its own literal.
   */
  function ResolvedLiteralValues(g: PsiGraph, v: ElementId, fuel: nat): (r: Option<seq<LiteralValue>>)
    ensures ElementAt(g, Some(v)).ArrayInitializer? && r.Some? ==> |r.value| <= |ElementAt(g, Some(v)).initializers|
    ensures !ElementAt(g, Some(v)).ArrayInitializer? && r.Some? ==> |r.value| <= 1
  {
    match ElementAt(g, Some(v))
    case ArrayInitializer(initializers) => ResolveAll(g, initializers, fuel)
    case _ =>
      match LiteralResolution(g, Some(v), fuel)
      case OutOfFuel => None
      case NotFound => Some([])
      case Found(lit) => Some([lit])
  }

  /** A value that is not an array initializer yields its own literal or nothing. */
  lemma SingleValue(g: PsiGraph, v: ElementId, fuel: nat)
    requires !ElementAt(g, Some(v)).ArrayInitializer?
    requires ResolvedLiteralValues(g, v, fuel).Some?
    ensures var r := ResolvedLiteralValues(g, v, fuel).value;
      && |r| <= 1
      && (|r| == 1 <==> LiteralResolution(g, Some(v), fuel).Found?)
      && (|r| == 1 ==> r[0] == LiteralResolution(g, Some(v), fuel).found)
  {
  }

  /** The results are exactly the literals that some element resolves to, one per resolvable element at most. */
  lemma {:induction false} ResolveAllKeepsResolvable(g: PsiGraph, ids: seq<ElementId>, fuel: nat)
    requires ResolveAll(g, ids, fuel).Some?
    ensures |ResolveAll(g, ids, fuel).value| <= |ids|
    ensures forall x :: x in ResolveAll(g, ids, fuel).value <==>
      exists i :: 0 <= i < |ids| && LiteralResolution(g, Some(ids[i]), fuel) == Found(x)
  {
    if ids != [] {
      ResolveAllKeepsResolvable(g, ids[1..], fuel);
      var rest := ResolveAll(g, ids[1..], fuel).value;
      forall x ensures x in ResolveAll(g, ids, fuel).value <==>
        exists i :: 0 <= i < |ids| && LiteralResolution(g, Some(ids[i]), fuel) == Found(x)
      {
        if exists i :: 0 <= i < |ids| && LiteralResolution(g, Some(ids[i]), fuel) == Found(x) {
          var i :| 0 <= i < |ids| && LiteralResolution(g, Some(ids[i]), fuel) == Found(x);
          if i > 0 {
            assert ids[1..][i - 1] == ids[i];
          }
        }
        if x in rest {
          var i :| 0 <= i < |ids[1..]| && LiteralResolution(g, Some(ids[1..][i]), fuel) == Found(x);
          assert ids[i + 1] == ids[1..][i];
        }
      }
    }
  }

  /** When every element resolves to a literal, the results follow the elements one to one, in order. */
  lemma {:induction false} ResolveAllInOrder(g: PsiGraph, ids: seq<ElementId>, fuel: nat)
    requires forall i :: 0 <= i < |ids| ==> LiteralResolution(g, Some(ids[i]), fuel).Found?
    ensures ResolveAll(g, ids, fuel).Some?
    ensures |ResolveAll(g, ids, fuel).value| == |ids|
    ensures forall i :: 0 <= i < |ids| ==> ResolveAll(g, ids, fuel).value[i] == LiteralResolution(g, Some(ids[i]), fuel).found
  {
    if ids != [] {
      assert forall i :: 0 <= i < |ids[1..]| ==> ids[1..][i] == ids[i + 1];
      ResolveAllInOrder(g, ids[1..], fuel);
      assert LiteralResolution(g, Some(ids[0]), fuel).Found?;
    }
  }

  /**
   * `mapNotNull` over a concatenation: the results of `a` followed by those
   * of `b`, so the surviving literals keep the order of their elements
   * whatever is dropped; it runs out of fuel exactly when one half does.
   */
  lemma {:induction false} ResolveAllAppend(g: PsiGraph, a: seq<ElementId>, b: seq<ElementId>, fuel: nat)
    ensures ResolveAll(g, a + b, fuel) ==
      if ResolveAll(g, a, fuel).Some? && ResolveAll(g, b, fuel).Some?
      then Some(ResolveAll(g, a, fuel).value + ResolveAll(g, b, fuel).value)
      else None
  {
    if a == [] {
      assert a + b == b;
      if ResolveAll(g, b, fuel).Some? {
        assert [] + ResolveAll(g, b, fuel).value == ResolveAll(g, b, fuel).value;
      }
    } else {
      assert (a + b)[0] == a[0];
      assert (a + b)[1..] == a[1..] + b;
      ResolveAllAppend(g, a[1..], b, fuel);
      match LiteralResolution(g, Some(a[0]), fuel)
      case OutOfFuel =>
      case NotFound =>
      case Found(lit) =>
        if ResolveAll(g, a[1..], fuel).Some? && ResolveAll(g, b, fuel).Some? {
          assert [lit] + (ResolveAll(g, a[1..], fuel).value + ResolveAll(g, b, fuel).value)
            == ([lit] + ResolveAll(g, a[1..], fuel).value) + ResolveAll(g, b, fuel).value;
        }
    }
  }

  /** One element contributes its literal when it resolves, nothing when it does not, and fails when it runs out of fuel. */
  lemma SingleElement(g: PsiGraph, id: ElementId, fuel: nat)
    ensures ResolveAll(g, [id], fuel) ==
      match LiteralResolution(g, Some(id), fuel)
      case OutOfFuel => None
      case NotFound => Some([])
      case Found(lit) => Some([lit])
  {
    assert [id][1..] == [];
    assert ResolveAll(g, [], fuel) == Some([]);
    if LiteralResolution(g, Some(id), fuel).Found? {
      var lit := LiteralResolution(g, Some(id), fuel).found;
      assert [lit] + [] == [lit];
    }
  }

  // ---------------------------------------------------------------------------
  // Counting
  // ---------------------------------------------------------------------------

  /** How many elements of `s` satisfy `p`. */
  function Count<T>(s: seq<T>, p: T -> bool): nat {
    if s == [] then 0 else Count(s[..|s| - 1], p) + (if p(s[|s| - 1]) then 1 else 0)
  }

  datatype MoreThanResult = Answer(more: bool) | IllegalArgument

  /**
   * `moreThan(n, predicate)`: whether more than `n` elements satisfy the
   * predicate; a negative `n` fails `require(n >= 0)`. `evaluated` is how
   * many elements the predicate was applied to: the scan stops at the
   * element that makes the count exceed `n`.
   */
  method MoreThan<T>(a: array<T>, n: int, p: T -> bool) returns (r: MoreThanResult, ghost evaluated: nat)
    ensures n < 0 <==> r == IllegalArgument
    ensures n >= 0 ==> r == Answer(Count(a[..], p) > n)
    ensures evaluated <= a.Length
    ensures r == Answer(true) ==> Count(a[..evaluated], p) == n + 1 && evaluated > 0 && p(a[evaluated - 1])
    ensures r == Answer(false) ==> evaluated == a.Length
  {
    evaluated := 0;
    if n < 0 {
      return IllegalArgument, 0;
    }
    var count := 0;
    var i := 0;
    while i < a.Length
      invariant 0 <= i <= a.Length
      invariant count == Count(a[..i], p) && count <= n
    {
      assert a[..i + 1][..i] == a[..i];
      if p(a[i]) {
        count := count + 1;
        if count > n {
          evaluated := i + 1;
          CountGrows(a[..], p, i + 1);
          return Answer(true), evaluated;
        }
      }
      i := i + 1;
    }
    assert a[..a.Length] == a[..];
    evaluated := a.Length;
    r := Answer(false);
  }

  /** Counting a longer prefix never counts fewer. */
  lemma {:induction false} CountGrows<T>(s: seq<T>, p: T -> bool, k: nat)
    requires k <= |s|
    ensures Count(s[..k], p) <= Count(s, p)
    decreases |s| - k
  {
    if k < |s| {
      CountGrows(s, p, k + 1);
      assert s[..k + 1][..k] == s[..k];
    } else {
      assert s[..k] == s;
    }
  }
}
