# UML Type node of UMLDoclet, in Dafny

This project models the `Type` node of UMLDoclet's UML intermediate model
(`src/main/java/nl/talsmasoftware/umldoclet/uml/Type.java`). A `Type` is a class,
interface, enum or annotation in a PlantUML class diagram. It holds:

- the namespace it belongs to and its classification, both fixed;
- a `TypeName` that can be upgraded in place when a more complete generic signature turns up;
- two copy-on-write display flags, `isDeprecated` and `addPackageToName`;
- a cross-reference `Link`, built lazily and then cached;
- its member children.

The project also models how a `Type` writes itself as PlantUML text.

Files:

- `wrappers.dfy`: `Option` and `Result`. They stand for Java's nullable references and thrown exceptions.
- `java_strings.dfy`: the `java.lang.String` operations the type relies on (`compareTo`,
  `hashCode` in 32-bit arithmetic, `startsWith`, `toLowerCase`, `replace`).
- `type_names.dfy`: `TypeName`, with its order and hash taken from the qualified name only.
- `writer.dfy`: the output buffer. It stands for `IndentingPrintWriter` as a sequence of
  tokens (`Str`, `Whitespace`, `Newline`), one token per append.
- `uml_type.dfy`: `Classification`, `Namespace` and the `Type` class. `Type` is a class
  because the source updates its `name`, `link` and `parent` fields in place. The module
  also holds the specification functions that the methods are proved against:
  - `Reconcile` for the generic upgrade;
  - `NameTokens`, `ChildrenTokens`, `Header` and `Rendering` for the output.
- `type_properties.dfy`: lemmas that relate these operations to each other and to
  independent statements of what they should do.

The collaborators that `Type` calls are not part of this model. Each one is passed in as a
function value:

- `TypeName.toUml(QUALIFIED, namespace)`;
- `Link.forType` together with `Link.writeTo`;
- each child part's own `writeTo`;
- `TypeMember.replaceParameterizedType`.

`updateGenericTypeVariables` replaces the stored name whenever the qualified names match
(Type.java:69). Only the rewrite of the members depends on the arity (Type.java:70), so
an arity mismatch still changes the name. `Reconcile` and
`TypeProperties.ReconcileOnSameType` state this.

## Model

| member | source | states |
|---|---|---|
| `UmlType.ToUmlIsLowerCasedName` | src/main/java/nl/talsmasoftware/umldoclet/uml/Type.java:36-38 | each classification's keyword is its constant name lower-cased with '_' turned into ' ' ("abstract class", ...) |
| `UmlType.NullArgument` | src/main/java/nl/talsmasoftware/umldoclet/uml/Type.java:54-56 | construction fails exactly when an argument is null, with the message of the first null one in the order namespace, classification, name |
| `UmlType.Type.Create` | src/main/java/nl/talsmasoftware/umldoclet/uml/Type.java:47-60 | the public constructor throws on a null argument; otherwise the new type has the given namespace, classification and name, no flags and no children |
| `UmlType.Type.constructor` | src/main/java/nl/talsmasoftware/umldoclet/uml/Type.java:47-49 | the getters return exactly the given namespace, classification and name; the flags are off; the namespace is the first parent |
| `UmlType.Type.Copy` | src/main/java/nl/talsmasoftware/umldoclet/uml/Type.java:51-60 | the private constructor stores all six arguments and adopts the given children |
| `UmlType.Type.UpdateGenericTypeVariables` | src/main/java/nl/talsmasoftware/umldoclet/uml/Type.java:66-80 | the new name and children are those `Reconcile` gives for the old ones; proved through the nested loop's invariants |
| `TypeProperties.ReconcileIgnoresOtherNames` | src/main/java/nl/talsmasoftware/umldoclet/uml/Type.java:67 | a null name, or a name with another qualified name, leaves the name and every child unchanged |
| `TypeProperties.ReconcileOnSameType` | src/main/java/nl/talsmasoftware/umldoclet/uml/Type.java:68-78 | on a matching qualified name the name is always replaced; members are untouched on an arity mismatch; non-members are never touched; otherwise member j has old generic i rewritten to new generic i for each i |
| `TypeProperties.SubstituteInPositionOrder` | src/main/java/nl/talsmasoftware/umldoclet/uml/Type.java:74-76 | the loop's rewrites happen in position order 0, 1, ..., equal to a front-to-back recursive statement of that order |
| `TypeProperties.ReconcileIdempotent` | src/main/java/nl/talsmasoftware/umldoclet/uml/Type.java:66-80 | adopting the same signature twice equals adopting it once, when rewriting a generic to itself changes no member |
| `UmlType.Type.Link` | src/main/java/nl/talsmasoftware/umldoclet/uml/Type.java:82-85 | the first call builds the link from the type and caches it; later calls return the cached one and build none; afterwards the ghost count of builds is exactly one |
| `UmlType.Type.Deprecated` | src/main/java/nl/talsmasoftware/umldoclet/uml/Type.java:87-89 | returns a fresh type with the same namespace, classification, name and children, deprecated, with the other flag kept; it equals the original both ways; the original is unchanged |
| `UmlType.Type.AddPackageToName` | src/main/java/nl/talsmasoftware/umldoclet/uml/Type.java:91-93 | returns a fresh type with the same namespace, classification, name and children, with the package label flag set and the deprecation flag kept; it equals the original both ways |
| `UmlType.Type.SetParent` | src/main/java/nl/talsmasoftware/umldoclet/uml/Type.java:103-107 | the parent becomes the argument; the namespace adopts it only if it had no parent, otherwise it keeps its own |
| `UmlType.Type.Context` | src/main/java/nl/talsmasoftware/umldoclet/uml/Type.java:122-126 | the rendering namespace is present exactly when the parent is a package, and then it is that package's name |
| `UmlType.Type.WriteNameTo` | src/main/java/nl/talsmasoftware/umldoclet/uml/Type.java:109-118 | appends the optional two-size package label and then the name shortened against the given context |
| `TypeProperties.PackageLabelParts` | src/main/java/nl/talsmasoftware/umldoclet/uml/Type.java:110-116 | the label is written exactly when the flag is set and the qualified name starts with this type's namespace and a dot; its parts rejoined give the qualified name; the context affects only the name after it |
| `TypeProperties.PackageLabelIsTextual` | src/main/java/nl/talsmasoftware/umldoclet/uml/Type.java:110 | the label test is a textual prefix test: a deeper package's type gets the label, a sibling package sharing a prefix does not |
| `TypeProperties.PackageLabelForDeeperNames` | src/main/java/nl/talsmasoftware/umldoclet/uml/Type.java:110-111 | every name of the form namespace + "." + rest gets the label when the flag is set, and the label shows exactly that rest |
| `UmlType.Type.WriteHeaderTo` | src/main/java/nl/talsmasoftware/umldoclet/uml/Type.java:131-134 | appends keyword, name, marker when flagged and the memoised link, each followed by whitespace |
| `UmlType.Type.WriteChildrenTo` | src/main/java/nl/talsmasoftware/umldoclet/uml/Type.java:149-155 | appends nothing without children; otherwise the children's output in order, between "{", newline and "}" |
| `UmlType.Type.WriteTo` | src/main/java/nl/talsmasoftware/umldoclet/uml/Type.java:120-147 | appends exactly `Rendering` of the type's state, its context and its link; the link is built at most once |
| `TypeProperties.ChildrenBraces` | src/main/java/nl/talsmasoftware/umldoclet/uml/Type.java:150-153 | braces appear exactly when there are children, around the children's output |
| `TypeProperties.ChildrenBodyConcatenates` | src/main/java/nl/talsmasoftware/umldoclet/uml/Type.java:152 | the children's output is the concatenation of each child's output in child order |
| `TypeProperties.RenderingOpensWithKeyword` | src/main/java/nl/talsmasoftware/umldoclet/uml/Type.java:128-139 | the output opens with "interface" for an annotation and the classification's keyword otherwise, then whitespace |
| `TypeProperties.RenderingTrailer` | src/main/java/nl/talsmasoftware/umldoclet/uml/Type.java:135-143 | an annotation's output ends with a separate `annotation <name>` line after the body's newline; any other type's output ends with the body's newline |
| `TypeProperties.DeprecationInsertsMarker` | src/main/java/nl/talsmasoftware/umldoclet/uml/Type.java:133-141 | setting the deprecation flag changes the output only by inserting `<<deprecated>>` and whitespace after the name |
| `UmlType.Type.HashCode` | src/main/java/nl/talsmasoftware/umldoclet/uml/Type.java:157-160 | the hash is a 32-bit int read from the name alone |
| `UmlType.Type.CompareTo` | src/main/java/nl/talsmasoftware/umldoclet/uml/Type.java:162-165 | comparing with null fails with its message; otherwise the result is 0 exactly when the qualified names are equal |
| `UmlType.Type.Equals` | src/main/java/nl/talsmasoftware/umldoclet/uml/Type.java:167-170 | equal exactly when the other object is a Type with the same qualified name |
| `TypeProperties.EqualsIsEquivalence` | src/main/java/nl/talsmasoftware/umldoclet/uml/Type.java:167-170 | equals is reflexive, symmetric and transitive, and false for null and for other classes |
| `TypeProperties.EqualsAgreesWithCompareToAndHashCode` | src/main/java/nl/talsmasoftware/umldoclet/uml/Type.java:157-170 | equals holds exactly when compareTo is 0, and equal types have equal hash codes |
| `TypeProperties.CompareToIsOrder` | src/main/java/nl/talsmasoftware/umldoclet/uml/Type.java:162-165 | compareTo is antisymmetric and transitive |
| `TypeProperties.EqualityIgnoresFlags` | src/main/java/nl/talsmasoftware/umldoclet/uml/Type.java:44 | any two types with the same name are equal both ways, compare as 0 and hash alike, whatever their flags, so a copy equals its original |
| `TypeNames.CompareIsOrder` | src/main/java/nl/talsmasoftware/umldoclet/uml/Type.java:164 | the name order that compareTo delegates to is antisymmetric and transitive |

## Left out

- `IgnoredUmlTest` runs the external `javadoc` tool and reads the generated file from disk. It is process invocation and file I/O with no logic of its own.
- `IndentingPrintWriter` is not part of this model. The writer is an append-only token buffer. Indentation, and how `whitespace()` collapses repeated spaces, are not modelled.
- `TypeName.toUml`, `Link.forType`, `Link.writeTo`, the children's `writeTo` and `TypeMember.replaceParameterizedType` are not part of this model. They are function values passed in (`Env`, `Replacer`), so nothing is proved about what they produce. `Link.forType(this)` receives the whole type in the source; the model hands `linkFor` only the namespace's name and the type's name at the first call.
- The rendering namespace built from `getRootUMLPart()` and the parent package's name is identified by the package name alone. The diagram root is not modelled.
- `TypeName` is not part of this model. Its order and hash are taken to be `String.compareTo` and `String.hashCode` of the qualified name, an assumption about TypeName.java, which is not part of this model. Array dimensions and the SIMPLE display mode are left out.
- `UMLPart` is not part of this model. Its constructor is taken to record the namespace as the type's first parent. Its `addChild`, which reparents children, is not modelled, so children are values without a parent.
- `UmlType.Type.UpdateGenericTypeVariables`: members are values, so the rewrite does not reach a copy made by `deprecated()` or `addPackageToName()`. In the source a copy shares the same member objects by reference and would see the rewrite.
- `JavaStrings.CompareTo` and `JavaStrings.HashCode` work on characters as code points. Java compares and hashes UTF-16 code units, and adds two hash terms for each supplementary character, so the model agrees with Java only inside the Basic Multilingual Plane.
- `JavaStrings.ToLowerCase` lowers ASCII letters only, which is all the enum constant names contain.
- `UmlType.ToUml` assumes a default locale that lowers 'I' to 'i'. Type.java:37 calls `toLowerCase()` with the JVM's default locale. Under a Turkish or Azerbaijani locale the source writes "ınterface" and "annotatıon" with a dotless i, and the model does not capture that.
- The getters `getName`, `getNamespace` and `getClassification` are not separate members. The fields they return are read directly, and the constructors' postconditions state their values.
