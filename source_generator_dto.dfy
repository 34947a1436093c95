/**
 * The earlier DTO generator (XeDotNet.SourceGeneratorDto): records only. It
 * leaves out a property when one of its attribute lists reads exactly
 * `[NoDto]`, and it builds a record by writing the head, every
 * `Type identifier, `, then ");", and replacing ", );" by ");" throughout.
 * All records go into one source named DtoGen; nothing is reported.
 */
module SourceGeneratorDto {
  import opened Text
  import opened CodeAnalysis
  import opened EntityDiscovery
  import opened DtoSyntax
  import opened Sequences

  const NoDtoListText: string := "[NoDto]"
  const DtoHintName: string := "DtoGen"

  /** Collects, in visit order, the class declarations that implement IEntity. */
  class EntitySyntaxRec {
    var entityClasses: seq<ClassDecl>

    constructor ()
      ensures entityClasses == []
    {
      entityClasses := [];
    }

    /** Appends the visited class when its symbol resolves and implements IEntity. */
    method OnVisitSyntaxNode(node: SyntaxNode)
      modifies this
      ensures entityClasses == old(entityClasses) + Selected(node)
    {
      if node.ClassNode? {
        var classDeclaration := node.decl;
        var symbol := node.interfaces;
        if symbol.Some? && EntityInterface in symbol.value {
          entityClasses := entityClasses + [classDeclaration];
        }
      }
    }
  }

  // ---------------------------------------------------------------------------
  // Field filtering

  /** A property is left out when the full text of one of its attribute lists is exactly [NoDto]. */
  predicate IsNoDto(p: Property)
  {
    exists i :: 0 <= i < |p.attributeLists| && p.attributeLists[i].text == NoDtoListText
  }

  function RetainedOne(m: Member): seq<Property>
  {
    match m
    case PropertyMember(p) => if IsNoDto(p) then [] else [p]
    case OtherMember => []
  }

  /** The properties the record carries, in declaration order. */
  function Retained(members: seq<Member>): seq<Property>
  {
    FlatMap(members, RetainedOne)
  }

  /** Filtering distributes over concatenation: order is kept and members are judged one by one. */
  lemma RetainedAppend(a: seq<Member>, b: seq<Member>)
    ensures Retained(a + b) == Retained(a) + Retained(b)
  {
    FlatMapAppend(a, b, RetainedOne);
  }

  /** A property is kept exactly when it is a member and no attribute list of it reads [NoDto]. */
  lemma {:induction false} RetainedMembership(members: seq<Member>, p: Property)
    ensures p in Retained(members) <==> PropertyMember(p) in members && !IsNoDto(p)
    decreases |members|
  {
    if |members| > 0 {
      var init := members[..|members| - 1];
      RetainedMembership(init, p);
      assert members == init + [members[|members| - 1]];
    }
  }

  /** Fills a list with the retained properties, member by member. */
  method GetAllProperties(classDeclaration: ClassDecl) returns (props: seq<Property>)
    ensures props == Retained(classDeclaration.members)
  {
    var members := classDeclaration.members;
    props := [];
    for i := 0 to |members|
      invariant props == Retained(members[..i])
    {
      FlatMapSnoc(members, i, RetainedOne);
      var prop := members[i];
      if prop.PropertyMember? {
        if !IsNoDto(prop.property) {
          props := props + [prop.property];
        }
      }
    }
    assert members[..|members|] == members;
  }

  // ---------------------------------------------------------------------------
  // Formatting

  /** The record text this generator writes: head, terminated parameters and ");", then the replace. */
  function ReplacedRecordLine(name: string, props: seq<Property>): string
  {
    Replace(RecordHead(name) + Terminated(Parameters(props)) + ");", ", );", ");")
  }

  /**
   * No `Type identifier` entry holds ", );" and no type text begins with
   * ");", so the replace can only match the closing separator. Commas are
   * allowed, as in `Dictionary<string, int>` or `(int, string)`.
   */
  predicate Unambiguous(props: seq<Property>)
  {
    forall k :: 0 <= k < |props| ==>
      Avoids(props[k].typeText + " " + props[k].identifier, ", );") && !OpensWithClose(props[k].typeText)
  }

  lemma RecordHeadCommaFree(name: string)
    requires ',' !in name
    ensures ',' !in RecordHead(name)
  {
    var a, b := "public record ", "Dto (";
    assert forall c :: c in a ==> c != ',';
    assert forall c :: c in b ==> c != ',';
    assert RecordHead(name) == a + name + b;
  }

  /**
   * For a class name without a comma (no C# identifier has one) and
   * unambiguous properties, the text
   * written by appending then replacing is the joined record line, exactly
   * what the later generator writes by trimming the last separator.
   */
  lemma RecordLineAgreement(name: string, props: seq<Property>)
    requires ',' !in name && Unambiguous(props)
    ensures ReplacedRecordLine(name, props) == RecordLine(name, props)
  {
    var ps := Parameters(props);
    forall k | 0 <= k < |ps| ensures Avoids(ps[k], ", );") && !OpensWithClose(ps[k]) {
      var t := props[k].typeText;
      if |t| >= 2 {
        assert ps[k][..2] == t[..2];
      } else if |t| == 1 {
        assert ps[k][1] == ' ';
      } else {
        assert ps[k][0] == ' ';
      }
    }
    RecordHeadCommaFree(name);
    var closed := Terminated(ps) + ");";
    assert RecordHead(name) + Terminated(ps) + ");" == RecordHead(name) + closed;
    ReplaceSkipsPrefix(RecordHead(name), closed, ", );", ");");
    ReplaceClosing(ps, ", );", ");");
  }

  /**
   * Writes the head, then `Type identifier, ` per property, then ");", and
   * replaces every ", );" by ");".
   */
  method FormatRecordClassMember(name: string, props: seq<Property>) returns (text: string)
    ensures text == ReplacedRecordLine(name, props)
    ensures ',' !in name && Unambiguous(props) ==> text == RecordLine(name, props)
    ensures ',' !in name && |props| == 0 ==> text == "public record " + name + "Dto ();"
  {
    ghost var ps := Parameters(props);
    var sb := "public record " + name + "Dto (";
    for i := 0 to |props|
      invariant sb == RecordHead(name) + Terminated(ps[..i])
    {
      sb := sb + props[i].typeText;
      sb := sb + " ";
      sb := sb + props[i].identifier;
      sb := sb + ", ";
      assert ps[..i + 1] == ps[..i] + [ps[i]];
      TerminatedSnoc(ps[..i], ps[i]);
    }
    assert ps[..|props|] == ps;
    sb := sb + ");";
    sb := Replace(sb, ", );", ");");
    text := sb;
    if ',' !in name && Unambiguous(props) {
      RecordLineAgreement(name, props);
    }
  }

  // ---------------------------------------------------------------------------
  // One generator pass

  /** The record line written for one entity. */
  function DtoText(e: ClassDecl): string
  {
    ReplacedRecordLine(e.identifier, Retained(e.members))
  }

  /** The DtoGen source: one record line per entity, in order, at indent 0. */
  function DtoLines(es: seq<ClassDecl>): (r: seq<Line>)
    ensures |r| == |es|
    ensures forall k :: 0 <= k < |es| ==> r[k] == Line(0, DtoText(es[k]))
    decreases |es|
  {
    if |es| == 0 then []
    else DtoLines(es[..|es| - 1]) + [Line(0, DtoText(es[|es| - 1]))]
  }

  /** What Execute hands to the compiler: the DtoGen source and no diagnostics. */
  function ExpectedOutput(es: seq<ClassDecl>): GeneratorOutput
  {
    GeneratorOutput([Source(DtoHintName, DtoLines(es))], [])
  }

  /** Writes one record line per entity of the receiver's list and adds them as DtoGen. */
  method Execute(ctxr: EntitySyntaxRec) returns (output: GeneratorOutput)
    ensures output == ExpectedOutput(ctxr.entityClasses)
    ensures |output.sources| == 1 && |output.sources[0].lines| == |ctxr.entityClasses|
  {
    var itext: seq<Line> := [];
    var entityClasses := ctxr.entityClasses;
    for i := 0 to |entityClasses|
      invariant |itext| == i
      invariant forall k :: 0 <= k < i ==> itext[k] == Line(0, DtoText(entityClasses[k]))
    {
      var classDeclaration := entityClasses[i];
      var props := GetAllProperties(classDeclaration);
      var text := FormatRecordClassMember(classDeclaration.identifier, props);
      itext := itext + [Line(0, text)];
    }
    assert itext == DtoLines(entityClasses);
    output := GeneratorOutput([Source(DtoHintName, itext)], []);
  }

  /** The compiler's side of a pass: a fresh receiver visits every node, then Execute runs. */
  method RunGenerator(nodes: seq<SyntaxNode>) returns (output: GeneratorOutput)
    ensures output == ExpectedOutput(Discover(nodes))
  {
    var receiver := new EntitySyntaxRec();
    for i := 0 to |nodes|
      invariant receiver.entityClasses == Discover(nodes[..i])
    {
      assert nodes[..i + 1][..i] == nodes[..i];
      receiver.OnVisitSyntaxNode(nodes[i]);
    }
    assert nodes[..|nodes|] == nodes;
    output := Execute(receiver);
  }
}
