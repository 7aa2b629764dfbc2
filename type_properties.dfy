/**
 * Properties of the UML Type model that relate several operations, or an operation
 * and an independent statement of what it should do.
 */
module TypeProperties {
  import opened Wrappers
  import opened TypeNames
  import opened Output
  import JavaStrings
  import opened UmlType

  // ---------------------------------------------------------------------------
  // Generic-signature reconciliation

  /**
   * Substitution read front to back: position 0 first, then the rest. The model
   * (and the source's loop) applies positions in increasing order; this is the same
   * order stated recursively from the front.
   */
  function SubstituteFromFront(replace: Replacer, m: MemberData, from: seq<TypeName>, to: seq<TypeName>): MemberData
    requires |from| == |to|
    decreases |from|
  {
    if from == [] then m
    else SubstituteFromFront(replace, replace(m, from[0], to[0]), from[1..], to[1..])
  }

  lemma {:induction false} SubstituteFromFrontLast(replace: Replacer, m: MemberData, from: seq<TypeName>, to: seq<TypeName>)
    requires |from| == |to| && from != []
    ensures SubstituteFromFront(replace, m, from, to)
         == replace(SubstituteFromFront(replace, m, from[..|from| - 1], to[..|to| - 1]), from[|from| - 1], to[|to| - 1])
    decreases |from|
  {
    var n := |from|;
    if n > 1 {
      var m' := replace(m, from[0], to[0]);
      SubstituteFromFrontLast(replace, m', from[1..], to[1..]);
      assert from[1..][..n - 2] == from[..n - 1][1..];
      assert to[1..][..n - 2] == to[..n - 1][1..];
    }
  }

  /** Substitute replaces old generic i by new generic i for i = 0, 1, ... in that order. */
  lemma {:induction false} SubstituteInPositionOrder(replace: Replacer, m: MemberData, from: seq<TypeName>, to: seq<TypeName>)
    requires |from| == |to|
    ensures Substitute(replace, m, from, to) == SubstituteFromFront(replace, m, from, to)
    decreases |from|
  {
    if from != [] {
      SubstituteInPositionOrder(replace, m, from[..|from| - 1], to[..|to| - 1]);
      SubstituteFromFrontLast(replace, m, from, to);
    }
  }

  /** Rewriting each generic to itself changes nothing, when the member's own rewrite does not. */
  lemma {:induction false} SubstituteSameIsIdentity(replace: Replacer, m: MemberData, generics: seq<TypeName>)
    requires forall x: MemberData, g: TypeName :: replace(x, g, g) == x
    ensures Substitute(replace, m, generics, generics) == m
    decreases |generics|
  {
    if generics != [] {
      SubstituteSameIsIdentity(replace, m, generics[..|generics| - 1]);
    }
  }

  /** A null name, or the name of another type, leaves the name and the members as they were. */
  lemma ReconcileIgnoresOtherNames(replace: Replacer, name: TypeName, children: seq<Child>, arg: Option<TypeName>)
    requires arg.None? || arg.value.qualified != name.qualified
    ensures Reconcile(replace, name, children, arg) == Reconciled(name, children)
  {
  }

  /**
   * A name of the same type always becomes the stored name, even when its number of
   * generics differs. Only then are the members left alone; non-member children are
   * never touched, and every member at position j is rewritten from the old generics
   * to the new ones.
   */
  lemma ReconcileOnSameType(replace: Replacer, name: TypeName, children: seq<Child>, arg: Option<TypeName>)
    requires arg.Some? && arg.value.qualified == name.qualified
    ensures Reconcile(replace, name, children, arg).name == arg.value
    ensures |Reconcile(replace, name, children, arg).children| == |children|
    ensures |name.generics| != |arg.value.generics| ==> Reconcile(replace, name, children, arg).children == children
    ensures forall j :: 0 <= j < |children| && children[j].OtherChild? ==>
              Reconcile(replace, name, children, arg).children[j] == children[j]
    ensures |name.generics| == |arg.value.generics| ==>
              forall j :: 0 <= j < |children| && children[j].Member? ==>
                Reconcile(replace, name, children, arg).children[j]
                  == Member(SubstituteFromFront(replace, children[j].member, name.generics, arg.value.generics))
  {
    if |name.generics| == |arg.value.generics| {
      forall j | 0 <= j < |children| && children[j].Member?
        ensures Reconcile(replace, name, children, arg).children[j]
                  == Member(SubstituteFromFront(replace, children[j].member, name.generics, arg.value.generics))
      {
        SubstituteInPositionOrder(replace, children[j].member, name.generics, arg.value.generics);
      }
    }
  }

  /** Adopting the same signature twice is the same as adopting it once. */
  lemma ReconcileIdempotent(replace: Replacer, name: TypeName, children: seq<Child>, arg: Option<TypeName>)
    requires forall x: MemberData, g: TypeName :: replace(x, g, g) == x
    ensures var once := Reconcile(replace, name, children, arg);
            Reconcile(replace, once.name, once.children, arg) == once
  {
    var once := Reconcile(replace, name, children, arg);
    if arg.Some? && arg.value.qualified == name.qualified {
      var twice := Reconcile(replace, once.name, once.children, arg);
      assert |twice.children| == |once.children|;
      forall j | 0 <= j < |once.children|
        ensures twice.children[j] == once.children[j]
      {
        if once.children[j].Member? {
          SubstituteSameIsIdentity(replace, once.children[j].member, arg.value.generics);
        }
      }
    }
  }

  // ---------------------------------------------------------------------------
  // Equality, order and hash

  /** equals is an equivalence, never holds for null or for objects of other classes. */
  lemma EqualsIsEquivalence(a: Type, b: Type, c: Type)
    ensures a.Equals(TypeObject(a))
    ensures a.Equals(TypeObject(b)) ==> b.Equals(TypeObject(a))
    ensures a.Equals(TypeObject(b)) && b.Equals(TypeObject(c)) ==> a.Equals(TypeObject(c))
    ensures !a.Equals(NullObject) && !a.Equals(OtherObject)
  {
  }

  /** equals holds exactly when compareTo returns 0, and then the hash codes agree. */
  lemma EqualsAgreesWithCompareToAndHashCode(a: Type, b: Type)
    ensures a.Equals(TypeObject(b)) <==> a.CompareTo(b) == Success(0)
    ensures a.Equals(TypeObject(b)) ==> a.HashCode() == b.HashCode()
  {
  }

  /** compareTo is antisymmetric and transitive, so it orders types by name. */
  lemma CompareToIsOrder(a: Type, b: Type, c: Type)
    ensures a.CompareTo(b).value == -b.CompareTo(a).value
    ensures a.CompareTo(b).value < 0 && b.CompareTo(c).value < 0 ==> a.CompareTo(c).value < 0
  {
    TypeNames.CompareIsOrder(a.name, b.name, c.name);
  }

  /** Types with equal names are equal whatever their flags, namespaces or children. */
  lemma EqualityIgnoresFlags(a: Type, b: Type)
    requires a.name == b.name
    ensures a.Equals(TypeObject(b)) && b.Equals(TypeObject(a))
    ensures a.HashCode() == b.HashCode() && a.CompareTo(b) == Success(0)
  {
  }

  // ---------------------------------------------------------------------------
  // Rendering

  /** The children's output is the concatenation of each child's output, in order. */
  lemma {:induction false} ChildrenBodyConcatenates(front: seq<Child>, back: seq<Child>, env: Env)
    ensures ChildrenBody(front + back, env) == ChildrenBody(front, env) + ChildrenBody(back, env)
    decreases |back|
  {
    if back == [] {
      assert front + back == front;
    } else {
      var all := front + back;
      var init := back[..|back| - 1];
      assert all[..|all| - 1] == front + init;
      assert all[|all| - 1] == back[|back| - 1];
      ChildrenBodyConcatenates(front, init, env);
      AppendAssociative(ChildrenBody(front, env), ChildrenBody(init, env), env.writeChild(back[|back| - 1]));
    }
  }

  /** Braces appear exactly when there are children, around their output. */
  lemma ChildrenBraces(children: seq<Child>, env: Env)
    ensures ChildrenTokens(children, env) == [] <==> children == []
    ensures children != [] ==>
      var out := ChildrenTokens(children, env);
      |out| >= 3 && out[0] == Str("{") && out[1] == Newline && out[|out| - 1] == Str("}")
      && out[2..|out| - 1] == ChildrenBody(children, env)
  {
  }

  /** The first token is the keyword: "interface" for an annotation, toUml otherwise. */
  lemma RenderingOpensWithKeyword(v: TypeView, link: string, context: Option<string>, env: Env)
    ensures var out := Rendering(v, link, context, env);
      |out| >= 2 && out[1] == Whitespace
      && out[0] == Str(match v.classification
                       case ENUM => "enum"
                       case INTERFACE => "interface"
                       case ANNOTATION => "interface"
                       case ABSTRACT_CLASS => "abstract class"
                       case CLASS => "class")
  {
  }

  /**
   * After the children's line, an annotation gets a line of its own that declares it
   * an annotation; any other type's output ends with that line.
   */
  lemma RenderingTrailer(v: TypeView, link: string, context: Option<string>, env: Env)
    ensures var out := Rendering(v, link, context, env);
      var body := Header(v, link, context, env) + ChildrenTokens(v.children, env) + [Newline];
      if v.classification == ANNOTATION
      then out == body + [Str("annotation"), Whitespace, Str(env.nameToUml(v.name, context)), Newline]
      else out == body
  {
  }

  /** What follows the deprecation marker's place: the link, the children and the trailer. */
  function AfterMarker(v: TypeView, link: string, context: Option<string>, env: Env): seq<Token>
  {
    [Str(link)] + [Whitespace] + ChildrenTokens(v.children, env) + [Newline]
    + (if v.classification == ANNOTATION
       then [Str(ToUml(v.classification)), Whitespace, Str(env.nameToUml(v.name, context)), Newline]
       else [])
  }

  /** A rendering is the keyword and name, the marker when flagged, then the rest. */
  lemma RenderingAroundMarker(v: TypeView, link: string, context: Option<string>, env: Env)
    ensures Rendering(v, link, context, env)
         == (if v.isDeprecated then Named(v, context, env) + [Str(DeprecatedMarker)] + [Whitespace]
             else Named(v, context, env))
            + AfterMarker(v, link, context, env)
  {
    var marked := if v.isDeprecated then Named(v, context, env) + [Str(DeprecatedMarker)] + [Whitespace]
                  else Named(v, context, env);
    var children := ChildrenTokens(v.children, env);
    var trailer := if v.classification == ANNOTATION
                   then [Str(ToUml(v.classification)), Whitespace, Str(env.nameToUml(v.name, context)), Newline]
                   else [];
    var r1 := [Str(link)] + [Whitespace];
    var r2 := r1 + children;
    var r3 := r2 + [Newline];
    AppendAssociative(marked, [Str(link)], [Whitespace]);
    AppendAssociative(marked, r1, children);
    AppendAssociative(marked, r2, [Newline]);
    AppendAssociative(marked, r3, trailer);
  }

  /** Flagging a type deprecated only inserts the marker after its name. */
  lemma DeprecationInsertsMarker(v: TypeView, link: string, context: Option<string>, env: Env)
    requires !v.isDeprecated
    ensures var plain := Rendering(v, link, context, env);
      var k := 3 + |NameTokens(v.namespaceName, v.name, v.addPackageToName, context, env)|;
      k <= |plain|
      && Rendering(v.(isDeprecated := true), link, context, env)
         == plain[..k] + [Str(DeprecatedMarker), Whitespace] + plain[k..]
  {
    var d := v.(isDeprecated := true);
    var named := Named(v, context, env);
    var rest := AfterMarker(v, link, context, env);
    RenderingAroundMarker(v, link, context, env);
    RenderingAroundMarker(d, link, context, env);
    assert Named(d, context, env) == named && AfterMarker(d, link, context, env) == rest;
    var plain := Rendering(v, link, context, env);
    assert plain[..|named|] == named && plain[|named|..] == rest;
    AppendAssociative(named, [Str(DeprecatedMarker)], [Whitespace]);
  }

  /**
   * The two-size label appears exactly when the flag is set and the qualified name
   * starts with this type's own namespace and a dot; its two parts put back together
   * give the qualified name. The label never depends on the namespace context, which
   * only affects the shortened name after it.
   */
  lemma PackageLabelParts(namespaceName: string, name: TypeName, addPackageToName: bool,
                          context: Option<string>, env: Env)
    ensures var out := NameTokens(namespaceName, name, addPackageToName, context, env);
      if ShowsPackageLabel(namespaceName, name, addPackageToName) then
        |out| == 6 && out[0] == Str("\"<size:14>") && out[2] == Str("\\n<size:10>")
        && out[3] == Str(namespaceName) && out[4] == Str("\" as ")
        && out[1].Str? && namespaceName + "." + out[1].s == name.qualified
        && out[5] == Str(env.nameToUml(name, context))
      else out == [Str(env.nameToUml(name, context))]
  {
    if ShowsPackageLabel(namespaceName, name, addPackageToName) {
      var out := NameTokens(namespaceName, name, addPackageToName, context, env);
      var prefix := namespaceName + ".";
      assert name.qualified[..|prefix|] == prefix;
      assert out[1].s == name.qualified[|prefix|..];
      assert prefix + out[1].s == name.qualified[..|prefix|] + name.qualified[|prefix|..];
    }
  }

  /**
   * The label test is textual: a namespace whose name is a prefix of a deeper
   * package's name gets the label, with the rest of the path shown as if it were the
   * type's own name; a sibling package that merely shares a prefix does not.
   */
  lemma PackageLabelIsTextual()
    ensures ShowsPackageLabel("com.example", TypeName("com.example.sub.Foo", []), true)
    ensures PackageLabel("com.example", "com.example.sub.Foo")[1] == Str("sub.Foo")
    ensures !ShowsPackageLabel("com.example", TypeName("com.examples.Foo", []), true)
    ensures !ShowsPackageLabel("com.example", TypeName("com.example.Foo", []), false)
  {
    assert "com.example.sub.Foo"[..12] == "com.example.";
    assert "com.example.sub.Foo"[12..] == "sub.Foo";
    assert "com.examples.Foo"[11] == 's';
  }

  /**
   * Any name textually below the namespace gets the label, however deep the rest of
   * its path, and the label shows exactly that rest.
   */
  lemma PackageLabelForDeeperNames(namespaceName: string, rest: string, generics: seq<TypeName>)
    ensures ShowsPackageLabel(namespaceName, TypeName(namespaceName + "." + rest, generics), true)
    ensures PackageLabel(namespaceName, namespaceName + "." + rest)[1] == Str(rest)
  {
    var qualified := namespaceName + "." + rest;
    assert qualified[..|namespaceName| + 1] == namespaceName + ".";
    assert qualified[|namespaceName| + 1..] == rest;
  }
}
