/**
 * The UML Type node: a class, interface, enum or annotation in the diagram, together
 * with its namespace, its (upgradable) generic name, two copy-on-write display flags,
 * a memoised cross-reference link and its member children, and its rendering as
 * PlantUML text.
 *
 * The collaborators Type calls but that are not part of this model (TypeName.toUml,
 * Link.forType and Link.writeTo, the children's own rendering, and
 * TypeMember.replaceParameterizedType) are passed in as function values.
 */
module UmlType {
  import opened Wrappers
  import opened TypeNames
  import opened Output
  import JavaStrings

  /** Type.Classification. */
  datatype Classification = ENUM | INTERFACE | ANNOTATION | ABSTRACT_CLASS | CLASS

  /** Enum.name() of a classification constant. */
  function ConstantName(c: Classification): string
  {
    match c
    case ENUM => "ENUM"
    case INTERFACE => "INTERFACE"
    case ANNOTATION => "ANNOTATION"
    case ABSTRACT_CLASS => "ABSTRACT_CLASS"
    case CLASS => "CLASS"
  }

  /**
   * Classification.toUml, by value: the keyword PlantUML uses for each classification.
   * ToUmlIsLowerCasedName proves it is the constant's name in lower case with '_'
   * turned into ' ', which is how the enum computes it.
   */
  function ToUml(c: Classification): string
  {
    match c
    case ENUM => "enum"
    case INTERFACE => "interface"
    case ANNOTATION => "annotation"
    case ABSTRACT_CLASS => "abstract class"
    case CLASS => "class"
  }

  lemma ToUmlIsLowerCasedName(c: Classification)
    ensures ToUml(c) == JavaStrings.Replace(JavaStrings.ToLowerCase(ConstantName(c)), '_', ' ')
  {
  }

  /** The keyword writeTo opens with: annotations are declared as interfaces. */
  function Keyword(c: Classification): string
  {
    ToUml(if c == ANNOTATION then INTERFACE else c)
  }

  /** A TypeMember (field or method) as a value: its name, declared type and parameter types. */
  datatype MemberData = MemberData(name: string, declaredType: TypeName, parameterTypes: seq<TypeName>)

  /** A child UML part of a Type: a TypeMember, or any other kind of part. */
  datatype Child = Member(member: MemberData) | OtherChild(description: string)

  /** What a UML part's parent can be, as far as Type needs to tell them apart. */
  datatype ParentRef = Package(packageName: string) | NamespaceNode(ns: Namespace) | OtherNode(id: nat)

  /** TypeMember.replaceParameterizedType(from, to), returning the rewritten member. */
  type Replacer = (MemberData, TypeName, TypeName) -> MemberData

  /** The collaborators used while rendering a Type. */
  datatype Env = Env(
    nameToUml: (TypeName, Option<string>) -> string,  // TypeName.toUml(QUALIFIED, namespace), namespace given by name
    linkFor: (string, TypeName) -> string,            // Link.forType(type) as written by Link.writeTo
    writeChild: Child -> seq<Token>                   // a child part's own writeTo
  )

  const NamespaceIsNull: string := "Containing package is <null>."
  const ClassificationIsNull: string := "Type classification is <null>."
  const NameIsNull: string := "Type name is <null>."
  const CompareToNull: string := "Cannot compare Type to <null>."
  const DeprecatedMarker: string := "<<deprecated>>"

  /**
   * The constructor's argument checks, in the order they run: the message of the
   * first null argument, or None when all three are present.
   */
  function NullArgument(hasNamespace: bool, hasClassification: bool, hasName: bool): (e: Option<string>)
    ensures e.None? <==> hasNamespace && hasClassification && hasName
    ensures !hasNamespace ==> e == Some(NamespaceIsNull)
    ensures hasNamespace && !hasClassification ==> e == Some(ClassificationIsNull)
    ensures hasNamespace && hasClassification && !hasName ==> e == Some(NameIsNull)
  {
    if !hasNamespace then Some(NamespaceIsNull)
    else if !hasClassification then Some(ClassificationIsNull)
    else if !hasName then Some(NameIsNull)
    else None
  }

  // ---------------------------------------------------------------------------
  // Generic-signature reconciliation

  /**
   * The member after replaceParameterizedType(from[i], to[i]) has been applied to it
   * for i = 0, 1, ..., |from| - 1, in that order.
   */
  function Substitute(replace: Replacer, m: MemberData, from: seq<TypeName>, to: seq<TypeName>): MemberData
    requires |from| == |to|
    decreases |from|
  {
    if from == [] then m
    else replace(Substitute(replace, m, from[..|from| - 1], to[..|to| - 1]), from[|from| - 1], to[|to| - 1])
  }

  /** A child after the generics upgrade: members are rewritten, other parts are left alone. */
  function UpgradeChild(replace: Replacer, c: Child, from: seq<TypeName>, to: seq<TypeName>): Child
    requires |from| == |to|
  {
    match c
    case Member(m) => Member(Substitute(replace, m, from, to))
    case OtherChild(_) => c
  }

  datatype Reconciled = Reconciled(name: TypeName, children: seq<Child>)

  /**
   * The name and children after updateGenericTypeVariables(arg). The name is replaced
   * whenever the qualified names match; the members are rewritten only when, in
   * addition, the number of generic arguments is unchanged.
   */
  function Reconcile(replace: Replacer, name: TypeName, children: seq<Child>, arg: Option<TypeName>): Reconciled
  {
    if arg.None? || arg.value.qualified != name.qualified then Reconciled(name, children)
    else if |name.generics| == |arg.value.generics| then
      Reconciled(arg.value, seq(|children|, j requires 0 <= j < |children| =>
        UpgradeChild(replace, children[j], name.generics, arg.value.generics)))
    else Reconciled(arg.value, children)
  }

  // ---------------------------------------------------------------------------
  // Rendering

  /** The label writeNameTo puts in front of the name when the package is shown in it. */
  function PackageLabel(namespaceName: string, qualified: string): seq<Token>
    requires |namespaceName| + 1 <= |qualified|
  {
    [Str("\"<size:14>"), Str(qualified[|namespaceName| + 1..]), Str("\\n<size:10>"), Str(namespaceName), Str("\" as ")]
  }

  /** Whether writeNameTo writes the two-size package label: a purely textual prefix test. */
  predicate ShowsPackageLabel(namespaceName: string, name: TypeName, addPackageToName: bool)
  {
    addPackageToName && JavaStrings.StartsWith(name.qualified, namespaceName + ".")
  }

  /** What writeNameTo(output, context) appends. */
  function NameTokens(namespaceName: string, name: TypeName, addPackageToName: bool,
                      context: Option<string>, env: Env): seq<Token>
  {
    (if ShowsPackageLabel(namespaceName, name, addPackageToName)
     then PackageLabel(namespaceName, name.qualified)
     else [])
    + [Str(env.nameToUml(name, context))]
  }

  /** The children, each rendered by itself, in order. */
  function ChildrenBody(children: seq<Child>, env: Env): seq<Token>
  {
    if children == [] then []
    else ChildrenBody(children[..|children| - 1], env) + env.writeChild(children[|children| - 1])
  }

  /** What writeChildrenTo appends: nothing, or the children between braces. */
  function ChildrenTokens(children: seq<Child>, env: Env): seq<Token>
  {
    if children == [] then []
    else [Str("{"), Newline] + ChildrenBody(children, env) + [Str("}")]
  }

  /** The state of a Type that its rendering depends on. */
  datatype TypeView = TypeView(namespaceName: string, classification: Classification, name: TypeName,
                               isDeprecated: bool, addPackageToName: bool, children: seq<Child>)

  /** The keyword and the name, each followed by whitespace. */
  function Named(v: TypeView, context: Option<string>, env: Env): seq<Token>
  {
    [Str(Keyword(v.classification))] + [Whitespace]
    + NameTokens(v.namespaceName, v.name, v.addPackageToName, context, env) + [Whitespace]
  }

  /**
   * Everything writeTo writes before the children: the keyword, the name, the
   * deprecation marker when flagged, and the link, each followed by whitespace.
   */
  function Header(v: TypeView, link: string, context: Option<string>, env: Env): seq<Token>
  {
    var named := Named(v, context, env);
    var marked := if v.isDeprecated then named + [Str(DeprecatedMarker)] + [Whitespace] else named;
    marked + [Str(link)] + [Whitespace]
  }

  /** What writeTo appends for a type in the given namespace context with the given link. */
  function Rendering(v: TypeView, link: string, context: Option<string>, env: Env): seq<Token>
  {
    Header(v, link, context, env) + ChildrenTokens(v.children, env) + [Newline]
    + (if v.classification == ANNOTATION
       then [Str(ToUml(v.classification)), Whitespace, Str(env.nameToUml(v.name, context)), Newline]
       else [])
  }

  // ---------------------------------------------------------------------------
  // Objects

  /** A Namespace: its dotted name and a parent that may be assigned later. */
  class Namespace {
    const name: string
    var parent: Option<ParentRef>

    constructor (name: string, parent: Option<ParentRef>)
      ensures this.name == name && this.parent == parent
    {
      this.name := name;
      this.parent := parent;
    }
  }

  /** Java's Object argument of equals: a Type, null, or an object of another class. */
  datatype Obj = TypeObject(t: Type) | NullObject | OtherObject

  class Type {
    const namespace: Namespace
    const classification: Classification
    var name: TypeName
    const isDeprecated: bool
    const addPackageToName: bool
    var link: Option<string>
    var parent: Option<ParentRef>
    var children: seq<Child>
    /** How many times Link.forType has been called for this instance. */
    ghost var linkConstructions: nat

    ghost predicate Valid()
      reads this`link, this`linkConstructions
    {
      linkConstructions == if link.Some? then 1 else 0
    }

    function View(): TypeView
      reads this`name, this`children
    {
      TypeView(namespace.name, classification, name, isDeprecated, addPackageToName, children)
    }

    /** The public constructor: no flags, no children, and the namespace as first parent. */
    constructor (namespace: Namespace, classification: Classification, name: TypeName)
      ensures Valid()
      ensures this.namespace == namespace && this.classification == classification && this.name == name
      ensures !isDeprecated && !addPackageToName && children == []
      ensures link.None? && parent == Some(NamespaceNode(namespace))
    {
      this.namespace := namespace;
      this.classification := classification;
      this.name := name;
      this.isDeprecated := false;
      this.addPackageToName := false;
      this.children := [];
      this.link := None;
      this.parent := Some(NamespaceNode(namespace));
      this.linkConstructions := 0;
    }

    /** The private constructor behind the copy-on-write flag setters. */
    constructor Copy(namespace: Namespace, classification: Classification, name: TypeName,
                     isDeprecated: bool, addPackageToName: bool, children: seq<Child>)
      ensures Valid()
      ensures this.namespace == namespace && this.classification == classification && this.name == name
      ensures this.isDeprecated == isDeprecated && this.addPackageToName == addPackageToName
      ensures this.children == children
      ensures link.None? && parent == Some(NamespaceNode(namespace))
    {
      this.namespace := namespace;
      this.classification := classification;
      this.name := name;
      this.isDeprecated := isDeprecated;
      this.addPackageToName := addPackageToName;
      this.children := children;
      this.link := None;
      this.parent := Some(NamespaceNode(namespace));
      this.linkConstructions := 0;
    }

    /** The public constructor called with possibly-null arguments: it throws on the first null one. */
    static method Create(namespace: Namespace?, classification: Option<Classification>, name: Option<TypeName>)
      returns (r: Result<Type, string>)
      ensures r.Failure? <==> namespace == null || classification.None? || name.None?
      ensures r.Failure? ==> Some(r.error) == NullArgument(namespace != null, classification.Some?, name.Some?)
      ensures r.Success? ==> fresh(r.value) && r.value.Valid()
      ensures r.Success? ==> r.value.namespace == namespace && r.value.classification == classification.value
      ensures r.Success? ==> r.value.name == name.value && r.value.children == []
      ensures r.Success? ==> !r.value.isDeprecated && !r.value.addPackageToName
    {
      var e := NullArgument(namespace != null, classification.Some?, name.Some?);
      if e.Some? {
        r := Failure(e.value);
      } else {
        var t := new Type(namespace, classification.value, name.value);
        r := Success(t);
      }
    }

    /**
     * updateGenericTypeVariables: adopt a newly seen generic signature of the same
     * qualified type, rewriting each member's old generic i to the new generic i.
     */
    method UpdateGenericTypeVariables(arg: Option<TypeName>, replace: Replacer)
      modifies this`name, this`children
      ensures Reconciled(name, children) == Reconcile(replace, old(name), old(children), arg)
    {
      if arg.Some? && arg.value.qualified == name.qualified {
        var generics := name.generics;
        name := arg.value;
        var upgraded := arg.value.generics;
        if |generics| == |upgraded| {
          var k := 0;
          while k < |children|
            invariant name == arg.value
            invariant 0 <= k <= |children| == |old(children)|
            invariant forall j :: 0 <= j < k ==>
              children[j] == UpgradeChild(replace, old(children)[j], generics, upgraded)
            invariant forall j :: k <= j < |children| ==> children[j] == old(children)[j]
          {
            if children[k].Member? {
              var m := children[k].member;
              var i := 0;
              while i < |generics|
                invariant 0 <= i <= |generics|
                invariant m == Substitute(replace, children[k].member, generics[..i], upgraded[..i])
              {
                assert generics[..i + 1][..i] == generics[..i];
                assert upgraded[..i + 1][..i] == upgraded[..i];
                m := replace(m, generics[i], upgraded[i]);
                i := i + 1;
              }
              assert generics[..i] == generics && upgraded[..i] == upgraded;
              children := children[k := Member(m)];
            }
            k := k + 1;
          }
        }
      }
    }

    /** link(): build the Link on first use and return the cached one afterwards. */
    method Link(linkFor: (string, TypeName) -> string) returns (l: string)
      requires Valid()
      modifies this`link, this`linkConstructions
      ensures Valid() && link == Some(l)
      ensures old(link).Some? ==> l == old(link).value
      ensures old(link).None? ==> l == linkFor(namespace.name, name)
    {
      if link.None? {
        link := Some(linkFor(namespace.name, name));
        linkConstructions := linkConstructions + 1;
      }
      l := link.value;
    }

    /** deprecated(): a new Type like this one but flagged deprecated; this one is untouched. */
    method Deprecated() returns (r: Type)
      ensures fresh(r) && r.Valid()
      ensures r.namespace == namespace && r.classification == classification && r.name == name
      ensures r.children == children
      ensures r.isDeprecated && r.addPackageToName == addPackageToName
      ensures r.link.None? && r.parent == Some(NamespaceNode(namespace))
      ensures r.Equals(TypeObject(this)) && Equals(TypeObject(r))
    {
      r := new Type.Copy(namespace, classification, name, true, addPackageToName, children);
    }

    /** addPackageToName(): a new Type like this one but showing its package; this one is untouched. */
    method AddPackageToName() returns (r: Type)
      ensures fresh(r) && r.Valid()
      ensures r.namespace == namespace && r.classification == classification && r.name == name
      ensures r.children == children
      ensures r.addPackageToName && r.isDeprecated == isDeprecated
      ensures r.link.None? && r.parent == Some(NamespaceNode(namespace))
      ensures r.Equals(TypeObject(this)) && Equals(TypeObject(r))
    {
      r := new Type.Copy(namespace, classification, name, isDeprecated, true, children);
    }

    /** setParent: record the parent, and hand it to the namespace if that has none yet. */
    method SetParent(p: Option<ParentRef>)
      modifies this`parent, namespace`parent
      ensures parent == p
      ensures namespace.parent == if old(namespace.parent).None? then p else old(namespace.parent)
    {
      parent := p;
      if namespace.parent.None? {
        namespace.parent := p;
      }
    }

    /** The namespace writeTo renders in: the parent package's name when the parent is a package. */
    function Context(): (ctx: Option<string>)
      reads this`parent
      ensures ctx.Some? <==> parent.Some? && parent.value.Package?
      ensures ctx.Some? ==> ctx.value == parent.value.packageName
    {
      match parent
      case Some(Package(packageName)) => Some(packageName)
      case _ => None
    }

    /** writeNameTo(output, context). */
    method WriteNameTo(out: Writer, context: Option<string>, env: Env)
      modifies out
      ensures out.tokens == old(out.tokens) + NameTokens(namespace.name, name, addPackageToName, context, env)
    {
      if addPackageToName && JavaStrings.StartsWith(name.qualified, namespace.name + ".") {
        var nameInPackage := name.qualified[|namespace.name| + 1..];
        out.Append("\"<size:14>");
        out.Append(nameInPackage);
        out.Append("\\n<size:10>");
        out.Append(namespace.name);
        out.Append("\" as ");
      }
      out.Append(env.nameToUml(name, context));
    }

    /** writeChildrenTo: the children between braces, or nothing when there are none. */
    method WriteChildrenTo(out: Writer, env: Env)
      modifies out
      ensures out.tokens == old(out.tokens) + ChildrenTokens(children, env)
    {
      if children != [] {
        out.Append("{");
        out.NewLine();
        var i := 0;
        while i < |children|
          invariant 0 <= i <= |children|
          invariant out.tokens == old(out.tokens) + [Str("{"), Newline] + ChildrenBody(children[..i], env)
        {
          assert children[..i + 1][..i] == children[..i];
          out.AppendAll(env.writeChild(children[i]));
          i := i + 1;
        }
        assert children[..i] == children;
        out.Append("}");
      }
    }

    /**
     * The opening both branches of writeTo share: keyword, name, deprecation marker
     * and link, each followed by whitespace.
     */
    method WriteHeaderTo(out: Writer, context: Option<string>, env: Env)
      requires Valid()
      modifies out, this`link, this`linkConstructions
      ensures Valid() && link.Some?
      ensures old(link).Some? ==> link == old(link)
      ensures old(link).None? ==> link == Some(env.linkFor(namespace.name, name))
      ensures out.tokens == old(out.tokens) + Header(View(), link.value, context, env)
    {
      ghost var start := out.tokens;
      ghost var v := View();
      out.Append(Keyword(classification));
      ghost var written := [Str(Keyword(classification))];
      out.Space();
      written := Step(start, written, [Whitespace], out.tokens);
      WriteNameTo(out, context, env);
      written := Step(start, written, NameTokens(namespace.name, name, addPackageToName, context, env), out.tokens);
      out.Space();
      written := Step(start, written, [Whitespace], out.tokens);
      if isDeprecated {
        out.Append(DeprecatedMarker);
        written := Step(start, written, [Str(DeprecatedMarker)], out.tokens);
        out.Space();
        written := Step(start, written, [Whitespace], out.tokens);
      }
      var l := Link(env.linkFor);
      out.Append(l);
      written := Step(start, written, [Str(l)], out.tokens);
      out.Space();
      written := Step(start, written, [Whitespace], out.tokens);
      assert written == Header(v, l, context, env);
      assert View() == v && link.value == l;
    }

    /** writeTo: the full PlantUML declaration of this type. */
    method WriteTo(out: Writer, env: Env)
      requires Valid()
      modifies out, this`link, this`linkConstructions
      ensures Valid() && link.Some?
      ensures old(link).Some? ==> link == old(link)
      ensures old(link).None? ==> link == Some(env.linkFor(namespace.name, name))
      ensures out.tokens == old(out.tokens) + Rendering(View(), link.value, Context(), env)
    {
      ghost var start := out.tokens;
      var context := Context();
      // an annotation opens as an interface (see Keyword) ...
      WriteHeaderTo(out, context, env);
      ghost var written := Header(View(), link.value, context, env);
      WriteChildrenTo(out, env);
      written := Step(start, written, ChildrenTokens(children, env), out.tokens);
      out.NewLine();
      written := Step(start, written, [Newline], out.tokens);
      if classification == ANNOTATION {
        // ... and is then declared an annotation on a line of its own
        out.Append(ToUml(classification));
        out.Space();
        out.Append(env.nameToUml(name, context));
        out.NewLine();
        written := Step(start, written, [Str(ToUml(classification)), Whitespace,
                                         Str(env.nameToUml(name, context)), Newline], out.tokens);
      }
    }

    /** hashCode: the name's hash. */
    function HashCode(): (h: int)
      reads this`name
      ensures JavaStrings.Int32Min <= h <= JavaStrings.Int32Max
    {
      TypeNames.Hash(name)
    }

    /** compareTo: order by name; comparing with null throws. */
    function CompareTo(other: Type?): (r: Result<int, string>)
      reads this`name, if other != null then {other} else {}
      ensures r.Failure? <==> other == null
      ensures r.Failure? ==> r.error == CompareToNull
      ensures r.Success? ==> (r.value == 0 <==> name.qualified == other.name.qualified)
    {
      if other == null then Failure(CompareToNull)
      else Success(TypeNames.Compare(name, other.name))
    }

    /** equals: the same object, or another Type whose name compares equal. */
    predicate Equals(other: Obj)
      reads this`name, if other.TypeObject? then {other.t} else {}
      ensures Equals(other) <==> other.TypeObject? && name.qualified == other.t.name.qualified
    {
      match other
      case TypeObject(t) => t == this || CompareTo(t) == Success(0)
      case _ => false
    }
  }
}
