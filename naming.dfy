/** JVM names of members: internal-name mangling with a module suffix, member-name mangling
    for inline classes, private top-level members and internal members, and the choice among
    the name sources of a function. */
module Naming {
  import opened Descriptors

  // ------------------------------------------------------------ module-name mangling

  /** Characters a Java identifier keeps: ASCII letters and digits, and every character beyond
      ASCII (taken as a letter). */
  predicate IsLetterOrDigit(c: char)
  {
    ('a' <= c <= 'z') || ('A' <= c <= 'Z') || ('0' <= c <= '9') || c as int > 127
  }

  /** A module name made into an identifier: every other character becomes `_`. */
  function Sanitize(moduleName: string): (r: string)
    ensures |r| == |moduleName|
    ensures forall i | 0 <= i < |r| :: r[i] == (if IsLetterOrDigit(moduleName[i]) then moduleName[i] else '_')
  {
    if moduleName == [] then []
    else
      Sanitize(moduleName[..|moduleName| - 1])
      + [if IsLetterOrDigit(moduleName[|moduleName| - 1]) then moduleName[|moduleName| - 1] else '_']
  }

  lemma SanitizedHasNoDollar(moduleName: string)
    ensures '$' !in Sanitize(moduleName)
  {
    var r := Sanitize(moduleName);
    forall i | 0 <= i < |r|
      ensures r[i] != '$'
    {
    }
  }

  /** The position of the first `c` in `s`, or -1. */
  function IndexOf(s: string, c: char): (i: int)
    ensures -1 <= i < |s|
    ensures i >= 0 ==> s[i] == c && c !in s[..i]
    ensures i < 0 ==> c !in s
  {
    if s == [] then -1
    else if s[0] == c then 0
    else
      var j := IndexOf(s[1..], c);
      assert j >= 0 ==> s[..j + 1] == [s[0]] + s[1..][..j];
      if j < 0 then -1 else j + 1
  }

  /** The name, `$` and the sanitized module name; for a name without `$`, the first `$` of
      the result is the one that separates the two. */
  function MangleInternalName(name: string, moduleName: string): (r: string)
    ensures name < r
    ensures '$' !in name ==> IndexOf(r, '$') == |name|
  {
    if '$' in name then name + "$" + Sanitize(moduleName)
    else
      FirstDollarAfter(name, Sanitize(moduleName));
      name + "$" + Sanitize(moduleName)
  }

  predicate CanBeMangledInternalName(name: string)
  {
    IndexOf(name, '$') != -1
  }

  /** The part before the first `$`. */
  function DemangleInternalName(name: string): (r: Option<string>)
    ensures r.Some? <==> CanBeMangledInternalName(name)
    ensures r.Some? ==> '$' !in r.value && r.value + "$" <= name
  {
    var i := IndexOf(name, '$');
    if i >= 0 then Some(name[..i]) else None
  }

  /** The part after the first `$`. */
  function ModuleNameSuffix(name: string): (r: Option<string>)
    ensures r.Some? <==> CanBeMangledInternalName(name)
  {
    var i := IndexOf(name, '$');
    if i >= 0 then Some(name[i + 1..]) else None
  }

  function InternalNameWithoutModuleSuffix(name: string): (r: Option<string>)
    ensures r.Some? <==> CanBeMangledInternalName(name)
  {
    var demangled := DemangleInternalName(name);
    if demangled.Some? then Some(demangled.value + "$") else None
  }

  /** A mangled name is always recognised as one. */
  lemma MangledIsRecognised(name: string, moduleName: string)
    ensures CanBeMangledInternalName(MangleInternalName(name, moduleName))
  {
    var r := MangleInternalName(name, moduleName);
    assert r[|name|] == '$';
  }

  /** For a name without `$`, demangling gives the name back and the suffix is the sanitized
      module name. */
  lemma {:induction false} InternalNameRoundTrip(name: string, moduleName: string)
    requires '$' !in name
    ensures DemangleInternalName(MangleInternalName(name, moduleName)) == Some(name)
    ensures ModuleNameSuffix(MangleInternalName(name, moduleName)) == Some(Sanitize(moduleName))
    ensures InternalNameWithoutModuleSuffix(MangleInternalName(name, moduleName)) == Some(name + "$")
  {
    var r := MangleInternalName(name, moduleName);
    FirstDollarAfter(name, Sanitize(moduleName));
    assert r[..|name|] == name;
    assert r[|name| + 1..] == Sanitize(moduleName);
  }

  lemma {:induction false} FirstDollarAfter(name: string, suffix: string)
    requires '$' !in name
    ensures IndexOf(name + "$" + suffix, '$') == |name|
    decreases |name|
  {
    if name != [] {
      assert (name + "$" + suffix)[1..] == name[1..] + "$" + suffix;
      FirstDollarAfter(name[1..], suffix);
    }
  }

  /** Splitting at the first `$` loses nothing: demangled name, `$` and suffix give the name back. */
  lemma SplitIsLossless(name: string)
    requires CanBeMangledInternalName(name)
    ensures DemangleInternalName(name).value + "$" + ModuleNameSuffix(name).value == name
  {
    var i := IndexOf(name, '$');
    assert name == name[..i] + [name[i]] + name[i + 1..];
  }

  /** A `$` in the name itself defeats the round trip: the split happens at the name's own `$`. */
  lemma DollarInNameBreaksRoundTrip()
    ensures DemangleInternalName(MangleInternalName("get$x", "main")) == Some("get")
    ensures ModuleNameSuffix(MangleInternalName("get$x", "main")) == Some("x$main")
  {
    assert Sanitize("main") == "main";
    assert MangleInternalName("get$x", "main") == "get" + "$" + "x$main";
    FirstDollarAfter("get", "x$main");
    assert ("get" + "$" + "x$main")[..3] == "get" && ("get" + "$" + "x$main")[4..] == "x$main";
  }

  /** Different module names can share a suffix: mangling does not tell `a-b` from `a.b`. */
  lemma ModuleSuffixNotInjective()
    ensures Sanitize("a-b") == Sanitize("a.b") == "a_b"
  {
  }

  // ------------------------------------------------------------ member-name mangling

  /** The module a member's internal name is mangled with: its own module when it comes from a
      compiled library, otherwise the module being compiled. */
  function ModuleName(f: Fun, currentModule: string): string
  {
    if f.names.moduleName.Some? then f.names.moduleName.value else currentModule
  }

  /** The name with the inline-class suffix: the signature-mangling suffix when there is one,
      otherwise `-impl` in an erased inline class. */
  function InlineClassSuffixed(name: string, f: Fun, kind: Option<OwnerKind>): string
  {
    if f.names.signatureManglingSuffix.Some? then name + f.names.signatureManglingSuffix.value
    else if kind == Some(ErasedInlineClass) then name + ImplSuffixForInlineClassMembers
    else name
  }

  /** The JVM name of a member named `name`. Apart from the special inline-class members,
      script properties and constructors of erased inline classes, it only ever appends to the
      name. */
  function MangleMemberNameIfRequired(name: string, f: Fun, kind: Option<OwnerKind>, currentModule: string): (r: string)
    ensures OrdinaryMangling(f) && !(IsConstructor(f) && kind == Some(ErasedInlineClass)) ==> name <= r
  {
    if IsScript(f.container) && f.shape.PropertyDeclaration? then name
    else if f.names.inlineClassMember == SynthesizedBox then BoxJvmMethodName
    else if f.names.inlineClassMember == SynthesizedUnbox then UnboxJvmMethodName
    else if f.names.inlineClassMember == SpecializedEquals then name
    else if IsConstructor(f) && kind != Some(ErasedInlineClass) then name
    else
      var base := if IsConstructor(f) then ErasedInlineConstructorName else name;
      var suffixed := InlineClassSuffixed(base, f, kind);
      if IsTopLevel(f) then
        if IsPrivate(f.visibility) && !IsConstructor(f) && suffixed != ClassInitializerName && f.names.partName.Some? then
          suffixed + "$" + f.names.partName.value
        else suffixed
      else if !IsConstructor(f) && f.visibility == Internal && !f.flags.publishedApi then
        MangleInternalName(suffixed, ModuleName(f, currentModule))
      else suffixed
  }

  /** Members that are neither special inline-class members nor script properties. */
  predicate OrdinaryMangling(f: Fun)
  {
    !(IsScript(f.container) && f.shape.PropertyDeclaration?) && f.names.inlineClassMember == OrdinaryMember
  }

  /** The synthesized `box`/`unbox` methods of inline classes have fixed names. */
  lemma BoxUnboxNames(name: string, f: Fun, kind: Option<OwnerKind>, currentModule: string)
    requires !(IsScript(f.container) && f.shape.PropertyDeclaration?)
    ensures f.names.inlineClassMember == SynthesizedBox ==> MangleMemberNameIfRequired(name, f, kind, currentModule) == "box-impl"
    ensures f.names.inlineClassMember == SynthesizedUnbox ==> MangleMemberNameIfRequired(name, f, kind, currentModule) == "unbox-impl"
  {
  }

  /** Constructors keep their name, except in an erased inline class where they become
      `constructor-impl` with the inline-class suffix. */
  lemma ConstructorNames(name: string, f: Fun, kind: Option<OwnerKind>, currentModule: string)
    requires OrdinaryMangling(f) && IsConstructor(f)
    ensures kind != Some(ErasedInlineClass) ==> MangleMemberNameIfRequired(name, f, kind, currentModule) == name
    ensures kind == Some(ErasedInlineClass) ==>
      MangleMemberNameIfRequired(name, f, kind, currentModule) ==
        "constructor-impl" + (if f.names.signatureManglingSuffix.Some? then f.names.signatureManglingSuffix.value else "-impl")
  {
  }

  /** The inline-class signature suffix wins over `-impl`, for every owner kind and every
      member: the name is followed by the suffix, and after it comes nothing, the part name of
      a private top-level member, or the module of an internal member, each after a `$`. */
  lemma SignatureSuffixWins(name: string, f: Fun, kind: Option<OwnerKind>, currentModule: string)
    requires OrdinaryMangling(f) && !IsConstructor(f)
    requires f.names.signatureManglingSuffix.Some?
    ensures var suffixed := name + f.names.signatureManglingSuffix.value;
      var r := MangleMemberNameIfRequired(name, f, kind, currentModule);
      suffixed <= r && (r == suffixed || r[|suffixed|] == '$') &&
      (r == suffixed || (f.names.partName.Some? && r == suffixed + "$" + f.names.partName.value) ||
       r == MangleInternalName(suffixed, ModuleName(f, currentModule)))
  {
  }

  /** A private top-level function gets its part's name appended when it has one, and a
      top-level member is never mangled with the module name. */
  lemma TopLevelNames(name: string, f: Fun, kind: Option<OwnerKind>, currentModule: string)
    requires OrdinaryMangling(f) && !IsConstructor(f) && IsTopLevel(f)
    ensures var suffixed := InlineClassSuffixed(name, f, kind);
      MangleMemberNameIfRequired(name, f, kind, currentModule) ==
        if IsPrivate(f.visibility) && suffixed != "<clinit>" && f.names.partName.Some?
        then suffixed + "$" + f.names.partName.value else suffixed
  {
  }

  /** An internal, unpublished member of a class is mangled with its module, and demangling
      its JVM name gives back the unmangled name; a published or non-internal one is not. */
  lemma InternalMembersMangled(name: string, f: Fun, kind: Option<OwnerKind>, currentModule: string)
    requires OrdinaryMangling(f) && !IsConstructor(f) && !IsTopLevel(f)
    requires '$' !in InlineClassSuffixed(name, f, kind)
    ensures var r := MangleMemberNameIfRequired(name, f, kind, currentModule);
      if f.visibility == Internal && !f.flags.publishedApi then
        DemangleInternalName(r) == Some(InlineClassSuffixed(name, f, kind)) &&
        ModuleNameSuffix(r) == Some(Sanitize(ModuleName(f, currentModule)))
      else r == InlineClassSuffixed(name, f, kind)
  {
    if f.visibility == Internal && !f.flags.publishedApi {
      InternalNameRoundTrip(InlineClassSuffixed(name, f, kind), ModuleName(f, currentModule));
    }
  }

  // ------------------------------------------------------------ function names

  /** The bean-style accessor names, which the JVM ABI defines outside this model. */
  datatype AccessorNaming = AccessorNaming(getterName: string -> string, setterName: string -> string)

  /** The JVM name of a function, from the first source that applies: an explicit JVM name
      (not for Java members), a special built-in name, the property accessor name, the SAM
      method or `invoke` for lambdas, `invoke` for local functions, and else the mangled name. */
  function MapFunctionName(f: Fun, kind: Option<OwnerKind>, naming: AccessorNaming, currentModule: string): (r: string)
    ensures var named := (f.flags.isJavaMember || f.names.jvmName.None?) && f.names.specialJvmName.None?;
      named && f.shape.SimpleFunction? && OrdinaryMangling(f) && !IsConstructor(f) ==> f.name <= r
  {
    if !f.flags.isJavaMember && f.names.jvmName.Some? then f.names.jvmName.value
    else if f.names.specialJvmName.Some? then f.names.specialJvmName.value
    else match f.shape
      case Getter(property) => AccessorJvmName(f, property, true, kind, naming, currentModule)
      case Setter(property) => AccessorJvmName(f, property, false, kind, naming, currentModule)
      case FunctionLiteral(samMethodName) => if samMethodName.Some? then samMethodName.value else InvokeName
      case LocalFunction => InvokeName
      case FunctionExpression => InvokeName
      case _ => MangleMemberNameIfRequired(f.name, f, kind, currentModule)
  }

  /** A getter or setter is named after its property (the accessor suffix for a synthetic
      accessor, with `access$` in front), except in annotation classes where it has the
      property's own name. */
  function AccessorJvmName(f: Fun, property: Property, getter: bool, kind: Option<OwnerKind>, naming: AccessorNaming, currentModule: string): string
  {
    if property.inAnnotationClass then property.name
    else
      var isAccessor := property.syntheticAccessor.Some?;
      var propertyName := if isAccessor then property.syntheticAccessor.value.accessorSuffix else property.name;
      var accessorName := if getter then naming.getterName(propertyName) else naming.setterName(propertyName);
      MangleMemberNameIfRequired(if isAccessor then "access$" + accessorName else accessorName, f, kind, currentModule)
  }

  /** The name sources in priority order. */
  lemma FunctionNamePriority(f: Fun, kind: Option<OwnerKind>, naming: AccessorNaming, currentModule: string)
    ensures var r := MapFunctionName(f, kind, naming, currentModule);
      (!f.flags.isJavaMember && f.names.jvmName.Some? ==> r == f.names.jvmName.value) &&
      ((f.flags.isJavaMember || f.names.jvmName.None?) && f.names.specialJvmName.Some? ==> r == f.names.specialJvmName.value) &&
      ((f.flags.isJavaMember || f.names.jvmName.None?) && f.names.specialJvmName.None? ==>
        (f.shape.LocalFunction? || f.shape.FunctionExpression? || (f.shape.FunctionLiteral? && f.shape.samMethodName.None?) ==> r == "invoke") &&
        ((f.shape.Getter? || f.shape.Setter?) && f.shape.property.inAnnotationClass ==> r == f.shape.property.name) &&
        (f.shape.SimpleFunction? || f.shape.ClassConstructor? ==> r == MangleMemberNameIfRequired(f.name, f, kind, currentModule)))
  {
  }

  /** A synthetic property accessor's getter is `access$` plus the getter name of its suffix,
      mangled like any other member; for an internal class member the module suffix comes last. */
  lemma SyntheticGetterName(f: Fun, property: Property, naming: AccessorNaming, currentModule: string)
    requires f.flags.isJavaMember || f.names.jvmName.None?
    requires f.names.specialJvmName.None? && f.shape == Getter(property)
    requires !property.inAnnotationClass && property.syntheticAccessor.Some?
    requires OrdinaryMangling(f) && !IsConstructor(f) && !IsTopLevel(f) && f.names.signatureManglingSuffix.None?
    requires f.visibility == Internal && !f.flags.publishedApi
    ensures MapFunctionName(f, None, naming, currentModule) ==
      "access$" + naming.getterName(property.syntheticAccessor.value.accessorSuffix) + "$" + Sanitize(ModuleName(f, currentModule))
  {
    var accessorName := naming.getterName(property.syntheticAccessor.value.accessorSuffix);
    assert MapFunctionName(f, None, naming, currentModule) == AccessorJvmName(f, property, true, None, naming, currentModule);
    assert AccessorJvmName(f, property, true, None, naming, currentModule)
        == MangleMemberNameIfRequired("access$" + accessorName, f, None, currentModule);
  }

  // ------------------------------------------------------------ field names

  /** The field of a property: the callee's name for a synthetic accessor, the property's name
      otherwise, with `$delegate` for a delegated property. */
  function MapDefaultFieldName(property: Property, isDelegated: bool): (r: string)
    ensures var name := if property.syntheticAccessor.Some? then property.syntheticAccessor.value.calleeName else property.name;
      name <= r &&
      (isDelegated ==> r[|name|..] == "$delegate") &&
      (!isDelegated ==> r == name)
  {
    var name := if property.syntheticAccessor.Some? then property.syntheticAccessor.value.calleeName else property.name;
    if isDelegated then name + DelegatedPropertyNameSuffix else name
  }
}
