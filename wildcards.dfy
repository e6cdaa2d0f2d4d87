/** Wildcard and raw-type decisions for generic JVM signatures. */
module Wildcards {
  import opened Descriptors

  /** The variance at which an argument is actually used: the projection's kind on an
      invariant parameter, the parameter's variance under an invariant or matching projection,
      and `out` when the two conflict (`In<out X>` means `In<*>`). */
  function EffectiveVariance(parameter: Variance, projection: Variance): Variance
  {
    if parameter == Invariant then projection
    else if projection == Invariant || projection == parameter then parameter
    else Out
  }

  /** A use-site projection that contradicts the declaration-site variance. */
  predicate Conflicting(parameter: Variance, projection: Variance)
  {
    parameter != Invariant && projection != Invariant && projection != parameter
  }

  /** The argument is already the most precise type for the parameter's direction, and the
      mode allows dropping the wildcard in that case. */
  predicate Elidable(parameter: Variance, p: Projection, mode: Mode)
  {
    mode.skipDeclarationSiteWildcardsIfPossible && !p.star &&
    ((parameter == Out && p.mostPreciseCovariant) || (parameter == In && p.mostPreciseContravariant))
  }

  /** The wildcard written for argument `p` of a parameter declared with `parameter`: the
      use-site projection on an invariant parameter; otherwise none at all when the mode skips
      declaration-site wildcards, and else the effective variance, unless the projection agrees
      with the declaration and the argument is already the most precise. */
  function VarianceForWildcard(parameter: Variance, p: Projection, mode: Mode): (r: Variance)
    ensures parameter == Invariant ==> r == p.kind
    ensures parameter != Invariant && mode.skipDeclarationSiteWildcards ==> r == Invariant
    ensures parameter != Invariant && !mode.skipDeclarationSiteWildcards ==>
      r == (if !Conflicting(parameter, p.kind) && Elidable(parameter, p, mode) then Invariant
            else EffectiveVariance(parameter, p.kind))
  {
    if parameter == Invariant then p.kind
    else if mode.skipDeclarationSiteWildcards then Invariant
    else if p.kind == Invariant || p.kind == parameter then
      if mode.skipDeclarationSiteWildcardsIfPossible && !p.star then
        if parameter == Out && p.mostPreciseCovariant then Invariant
        else if parameter == In && p.mostPreciseContravariant then Invariant
        else parameter
      else parameter
    else Out
  }

  /** A wildcard never points against the direction in which the argument is used: `? super`
      only for contravariant use, so never for a covariant parameter. */
  lemma WildcardFollowsUse(parameter: Variance, p: Projection, mode: Mode)
    ensures VarianceForWildcard(parameter, p, mode) == In ==> EffectiveVariance(parameter, p.kind) == In
    ensures parameter == Out ==> VarianceForWildcard(parameter, p, mode) != In
  {
  }

  /** `out T` with a final argument type renders without a wildcard where the mode allows it;
      with an open argument type it renders `? extends`; `In<out X>` renders `? extends`. */
  lemma DeclarationSiteWildcards(p: Projection, mode: Mode)
    requires !p.star
    requires !mode.skipDeclarationSiteWildcards && mode.skipDeclarationSiteWildcardsIfPossible
    ensures p.kind == Invariant && p.mostPreciseCovariant ==> VarianceForWildcard(Out, p, mode) == Invariant
    ensures p.kind == Invariant && !p.mostPreciseCovariant ==> VarianceForWildcard(Out, p, mode) == Out
    ensures p.kind == Out ==> VarianceForWildcard(In, p, mode) == Out
  {
  }

  /** The mode nested arguments are written in: the current mode's child mode for the
      argument's effective variance, or the current mode when it has none. */
  function ArgumentMode(mode: Mode, effective: Variance): (r: Mode)
    ensures effective == In && mode.genericContravariantArgumentMode.Some? ==> r == mode.genericContravariantArgumentMode.value
    ensures effective == Invariant && mode.genericInvariantArgumentMode.Some? ==> r == mode.genericInvariantArgumentMode.value
    ensures effective == Out && mode.genericArgumentMode.Some? ==> r == mode.genericArgumentMode.value
    ensures ((effective == In && mode.genericContravariantArgumentMode.None?) ||
             (effective == Invariant && mode.genericInvariantArgumentMode.None?) ||
             (effective == Out && mode.genericArgumentMode.None?)) ==> r == mode
  {
    var child := match effective
      case In => mode.genericContravariantArgumentMode
      case Invariant => mode.genericInvariantArgumentMode
      case Out => mode.genericArgumentMode;
    if child.Some? then child.value else mode
  }

  // ------------------------------------------------------------ raw types

  /** A non-star argument that forces the whole argument list out of the signature:
      `Nothing?` anywhere, or `Nothing` for a parameter that is not `in`. */
  predicate ErasesArgumentList(parameter: Variance, a: Projection)
  {
    !a.star && (a.t.special == NullableNothing || (a.t.special == Nothing && parameter != In))
  }

  predicate Aligned(t: KType)
  {
    |Parameters(t.segments)| == |Arguments(t.segments)|
  }

  predicate NothingInNonContravariantPosition(t: KType)
    requires Aligned(t)
  {
    var parameters, arguments := Parameters(t.segments), Arguments(t.segments);
    exists i | 0 <= i < |arguments| :: ErasesArgumentList(parameters[i], arguments[i])
  }

  /** Scans the arguments for one that erases the argument list. */
  method HasNothingInNonContravariantPosition(t: KType) returns (b: bool)
    requires Aligned(t)
    ensures b == NothingInNonContravariantPosition(t)
  {
    var parameters := Parameters(t.segments);
    var arguments := Arguments(t.segments);
    var i := 0;
    while i < |arguments|
      invariant 0 <= i <= |arguments|
      invariant forall j | 0 <= j < i :: !ErasesArgumentList(parameters[j], arguments[j])
    {
      var projection := arguments[i];
      if !projection.star {
        var argType := projection.t;
        if argType.special == NullableNothing || (argType.special == Nothing && parameters[i] != In) {
          return true;
        }
      }
      i := i + 1;
    }
    return false;
  }

  lemma {:induction false} AlignedSegments(segments: seq<Segment>)
    requires forall s | s in segments :: |s.parameters| == |s.arguments|
    ensures |Parameters(segments)| == |Arguments(segments)|
  {
    if segments != [] {
      AlignedSegments(segments[..|segments| - 1]);
    }
  }

  lemma WellFormedIsAligned(t: KType)
    requires WellFormed(t)
    ensures Aligned(t)
  {
    AlignedSegments(t.segments);
  }
}
