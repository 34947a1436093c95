/**
 * What the generators see of the compiler and what they hand back to it.
 * Syntax trees and the semantic model are reduced to the few texts and
 * answers the generators read; AddSource and ReportDiagnostic become values.
 */
module CodeAnalysis {
  import opened Wrappers

  /**
   * One attribute list of a member: its full text as written (`[NoDto]`,
   * `[NoDto, Key]`) and the name text of each attribute in it, in order.
   */
  datatype AttributeList = AttributeList(text: string, attributeNames: seq<string>)

  /** A property declaration: its type text, its identifier and its attribute lists. */
  datatype Property = Property(typeText: string, identifier: string, attributeLists: seq<AttributeList>)

  /** A member of a class body: a property, or anything else (field, method, constructor, nested type). */
  datatype Member = PropertyMember(property: Property) | OtherMember

  /** The syntax node immediately enclosing a class declaration. */
  datatype Parent =
    | NamespaceDeclaration(name: string)          // namespace N { ... }, name text as written
    | FileScopedNamespaceDeclaration(name: string) // namespace N;
    | TypeDeclaration(name: string)                // the class is nested in another type
    | CompilationUnit                              // the class is at the top of a file

  /** A class declaration: its identifier, its parent node and its members in source order. */
  datatype ClassDecl = ClassDecl(identifier: string, parent: Parent, members: seq<Member>)

  /**
   * A node the compiler offers to a syntax receiver. For a class declaration,
   * `interfaces` is None when the semantic model resolves no declared symbol,
   * and otherwise the names of all interfaces the symbol implements, directly
   * or through base types and other interfaces.
   */
  datatype SyntaxNode = ClassNode(decl: ClassDecl, interfaces: Option<seq<string>>) | OtherNode

  datatype Severity = Hidden | Info | Warning | Error

  datatype DiagnosticDescriptor = DiagnosticDescriptor(
    id: string, title: string, messageFormat: string, category: string,
    severity: Severity, isEnabledByDefault: bool)

  /** A reported diagnostic: its descriptor, the declaration it points at, the message arguments. */
  datatype Diagnostic = Diagnostic(descriptor: DiagnosticDescriptor, location: ClassDecl, messageArgs: seq<string>)

  /** One line written through an indented writer, with the indent level in force. */
  datatype Line = Line(indent: nat, text: string)

  /** A generated source added to the compilation under a hint name. */
  datatype Source = Source(hintName: string, lines: seq<Line>)

  /** Everything one generator run hands to the compiler. */
  datatype GeneratorOutput = GeneratorOutput(sources: seq<Source>, diagnostics: seq<Diagnostic>)
}

/**
 * Entity discovery, the rule both syntax receivers share: a class declaration
 * is kept when its declared symbol resolves and one of its interfaces is
 * named IEntity. Discover is what a receiver holds after seeing a sequence
 * of nodes.
 */
module EntityDiscovery {
  import opened Wrappers
  import opened CodeAnalysis

  const EntityInterface: string := "IEntity"

  predicate IsEntity(node: SyntaxNode)
  {
    node.ClassNode? && node.interfaces.Some? && EntityInterface in node.interfaces.value
  }

  /** What one visit adds to the receiver's list. */
  function Selected(node: SyntaxNode): (r: seq<ClassDecl>)
    ensures |r| <= 1
    ensures |r| == 1 <==> IsEntity(node)
    ensures |r| == 1 ==> r[0] == node.decl
  {
    if IsEntity(node) then [node.decl] else []
  }

  /** The receiver's list after visiting `nodes` in order, starting empty. */
  function Discover(nodes: seq<SyntaxNode>): (r: seq<ClassDecl>)
    ensures |r| <= |nodes|
    decreases |nodes|
  {
    if |nodes| == 0 then []
    else Discover(nodes[..|nodes| - 1]) + Selected(nodes[|nodes| - 1])
  }

  /** Visiting more nodes only appends: discovery distributes over concatenation. */
  lemma {:induction false} DiscoverAppend(a: seq<SyntaxNode>, b: seq<SyntaxNode>)
    ensures Discover(a + b) == Discover(a) + Discover(b)
    decreases |b|
  {
    if |b| == 0 {
      assert a + b == a;
    } else {
      var b' := b[..|b| - 1];
      assert (a + b)[..|a + b| - 1] == a + b';
      DiscoverAppend(a, b');
    }
  }

  /** A declaration is discovered exactly when some visited node is an entity declaring it. */
  lemma {:induction false} DiscoverMembership(nodes: seq<SyntaxNode>, d: ClassDecl)
    ensures d in Discover(nodes) <==> exists k :: 0 <= k < |nodes| && IsEntity(nodes[k]) && nodes[k].decl == d
    decreases |nodes|
  {
    if |nodes| > 0 {
      var init := nodes[..|nodes| - 1];
      DiscoverMembership(init, d);
      if exists k :: 0 <= k < |nodes| && IsEntity(nodes[k]) && nodes[k].decl == d {
        var k :| 0 <= k < |nodes| && IsEntity(nodes[k]) && nodes[k].decl == d;
        if k < |nodes| - 1 {
          assert init[k] == nodes[k];
        }
      }
      if d in Discover(init) {
        var k :| 0 <= k < |init| && IsEntity(init[k]) && init[k].decl == d;
        assert nodes[k] == init[k];
      }
    }
  }

  /** Nodes that are not entities leave the list as it is. */
  lemma {:induction false} DiscoverIgnoresNonEntities(nodes: seq<SyntaxNode>)
    requires forall k :: 0 <= k < |nodes| ==> !IsEntity(nodes[k])
    ensures Discover(nodes) == []
    decreases |nodes|
  {
    if |nodes| > 0 {
      DiscoverIgnoresNonEntities(nodes[..|nodes| - 1]);
    }
  }
}
