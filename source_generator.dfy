/**
 * The DTO generator (XeDotNet.SourceGenerator): for every class that
 * implements IEntity it writes a positional record `NameDto` holding the
 * class's properties minus those marked [NoDto], and a `ToDto` extension
 * method in a static class GeneratedDtoMapper. A class whose parent node is
 * not a namespace declaration gets its record but no mapper, and an SG0001
 * error diagnostic instead.
 */
module SourceGenerator {
  import opened Wrappers
  import opened Text
  import opened CodeAnalysis
  import opened EntityDiscovery
  import opened DtoSyntax
  import opened Sequences

  const NoDtoName: string := "NoDto"
  const DtoHintName: string := "GeneratedDto"
  const MapHintName: string := "GeneratedDtoMap"
  const MapperClassHeader: string := "public static class GeneratedDtoMapper"

  const MissingNamespaceDescriptor: DiagnosticDescriptor :=
    DiagnosticDescriptor("SG0001", "Uanble find class namespace", "Namespace no found for class {0}",
                         "DtoMapGenerator", Error, true)

  /** The SG0001 diagnostic for a class whose namespace cannot be found. */
  function MissingNamespace(decl: ClassDecl): Diagnostic
  {
    Diagnostic(MissingNamespaceDescriptor, decl, [decl.identifier])
  }

  // ---------------------------------------------------------------------------
  // Discovery: the syntax receiver

  /** Collects, in visit order, the class declarations that implement IEntity. */
  class EntitySyntaxRec {
    var entityClasses: seq<ClassDecl>

    constructor ()
      ensures entityClasses == []
    {
      entityClasses := [];
    }

    /** Appends the visited class when its symbol resolves and implements IEntity. */
    method OnVisitSyntaxNode(node: SyntaxNode)
      modifies this
      ensures entityClasses == old(entityClasses) + Selected(node)
    {
      if node.ClassNode? {
        var classDeclaration := node.decl;
        var symbol := node.interfaces;
        if symbol.Some? && EntityInterface in symbol.value {
          entityClasses := entityClasses + [classDeclaration];
        }
      }
    }
  }

  // ---------------------------------------------------------------------------
  // Field filtering

  /** The attribute names of all lists, flattened in order (SelectMany). */
  function AttributeNames(lists: seq<AttributeList>): (r: seq<string>)
    ensures forall n :: n in r <==> exists i :: 0 <= i < |lists| && n in lists[i].attributeNames
    decreases |lists|
  {
    if |lists| == 0 then []
    else
      var r := AttributeNames(lists[..|lists| - 1]) + lists[|lists| - 1].attributeNames;
      assert forall i :: 0 <= i < |lists| - 1 ==> lists[..|lists| - 1][i] == lists[i];
      r
  }

  /** A property is left out when one of its attributes is named NoDto, up to white space. */
  predicate IsNoDto(p: Property)
  {
    exists n :: n in AttributeNames(p.attributeLists) && Trim(n) == NoDtoName
  }

  function RetainedOne(m: Member): seq<Property>
  {
    match m
    case PropertyMember(p) => if IsNoDto(p) then [] else [p]
    case OtherMember => []
  }

  /** The properties the DTO carries, in declaration order. */
  function Retained(members: seq<Member>): seq<Property>
  {
    FlatMap(members, RetainedOne)
  }

  /** Filtering distributes over concatenation: order is kept and members are judged one by one. */
  lemma RetainedAppend(a: seq<Member>, b: seq<Member>)
    ensures Retained(a + b) == Retained(a) + Retained(b)
  {
    FlatMapAppend(a, b, RetainedOne);
  }

  /** A property is kept exactly when it is a member and carries no NoDto attribute. */
  lemma {:induction false} RetainedMembership(members: seq<Member>, p: Property)
    ensures p in Retained(members) <==> PropertyMember(p) in members && !IsNoDto(p)
    decreases |members|
  {
    if |members| > 0 {
      var init, last := members[..|members| - 1], members[|members| - 1];
      RetainedMembership(init, p);
      assert members == init + [last];
      assert Retained(members) == Retained(init) + RetainedOne(last);
      assert p in RetainedOne(last) <==> last == PropertyMember(p) && !IsNoDto(p);
    }
  }

  /** Fills a list with the retained properties, member by member. */
  method GetAllProperties(classDeclaration: ClassDecl) returns (props: seq<Property>)
    ensures props == Retained(classDeclaration.members)
  {
    var members := classDeclaration.members;
    props := [];
    for i := 0 to |members|
      invariant props == Retained(members[..i])
    {
      FlatMapSnoc(members, i, RetainedOne);
      var prop := members[i];
      if prop.PropertyMember? {
        if !IsNoDto(prop.property) {
          props := props + [prop.property];
        }
      }
    }
    assert members[..|members|] == members;
  }

  // ---------------------------------------------------------------------------
  // Formatting

  /**
   * Appends `Type identifier, ` per property, drops the final ", " when
   * anything was appended, then puts the record head in front and ");" after.
   */
  method FormatRecordClassMember(name: string, props: seq<Property>) returns (text: string)
    ensures text == RecordLine(name, props)
    ensures |props| == 0 ==> text == "public record " + name + "Dto ();"
  {
    ghost var ps := Parameters(props);
    var sb := "";
    for i := 0 to |props|
      invariant sb == Terminated(ps[..i])
    {
      sb := sb + props[i].typeText;
      sb := sb + " ";
      sb := sb + props[i].identifier;
      sb := sb + ", ";
      assert ps[..i + 1] == ps[..i] + [ps[i]];
      TerminatedSnoc(ps[..i], ps[i]);
    }
    assert ps[..|props|] == ps;
    if |sb| > 0 {
      TerminatedIsJoin(ps);
      sb := sb[..|sb| - 2];
    }
    sb := "public record " + name + "Dto (" + sb;
    sb := sb + ");";
    text := sb;
  }

  /**
   * Appends `entity.identifier, ` per property, drops the final ", " when
   * anything was appended, then puts the method head in front and ");" after.
   */
  method FormatClassMapExtension(name: string, fullClassName: string, props: seq<Property>) returns (text: string)
    ensures text == MapperLine(name, fullClassName, props)
    ensures |props| == 0 ==>
      text == "public static " + name + "Dto ToDto(this " + fullClassName + " entity) => new " + name + "Dto();"
  {
    ghost var args := Arguments(props);
    var sb := "";
    for i := 0 to |props|
      invariant sb == Terminated(args[..i])
    {
      sb := sb + "entity." + props[i].identifier;
      sb := sb + ", ";
      assert args[..i + 1] == args[..i] + [args[i]];
      TerminatedSnoc(args[..i], args[i]);
    }
    assert args[..|props|] == args;
    if |sb| > 0 {
      TerminatedIsJoin(args);
      sb := sb[..|sb| - 2];
    }
    sb := "public static " + name + "Dto ToDto(this " + fullClassName + " entity) => new " + name + "Dto(" + sb;
    sb := sb + ");";
    text := sb;
  }

  // ---------------------------------------------------------------------------
  // The two artifacts

  /** The record line written for one entity. */
  function DtoText(e: ClassDecl): string
  {
    RecordLine(e.identifier, Retained(e.members))
  }

  /** The record artifact: one line per entity at indent 0. */
  function DtoLines(es: seq<ClassDecl>): (r: seq<Line>)
    ensures |r| == |es|
    ensures forall k :: 0 <= k < |es| ==> r[k] == Line(0, DtoText(es[k]))
    decreases |es|
  {
    if |es| == 0 then []
    else DtoLines(es[..|es| - 1]) + [Line(0, DtoText(es[|es| - 1]))]
  }

  /** The mapper line one entity contributes: one when its parent is a namespace declaration. */
  function MapperLinesOf(e: ClassDecl): seq<Line>
  {
    match e.parent
    case NamespaceDeclaration(ns) => [Line(1, MapperLine(e.identifier, ns + "." + e.identifier, Retained(e.members)))]
    case _ => []
  }

  /** The diagnostic one entity contributes: one when its parent is not a namespace declaration. */
  function DiagnosticsOf(e: ClassDecl): seq<Diagnostic>
  {
    if e.parent.NamespaceDeclaration? then [] else [MissingNamespace(e)]
  }

  /** The mapper lines of the entities, in order. */
  function MapperLines(es: seq<ClassDecl>): seq<Line>
  {
    FlatMap(es, MapperLinesOf)
  }

  /** The SG0001 diagnostics of the entities, in order. */
  function MissingNamespaceDiagnostics(es: seq<ClassDecl>): seq<Diagnostic>
  {
    FlatMap(es, DiagnosticsOf)
  }

  /** The mapper artifact: the class header, "{", the mapper lines, "}". */
  function MapArtifact(es: seq<ClassDecl>): seq<Line>
  {
    [Line(0, MapperClassHeader), Line(0, "{")] + MapperLines(es) + [Line(0, "}")]
  }

  /** One entity yields exactly one of a mapper line and a diagnostic. */
  lemma EntityYieldsOne(e: ClassDecl)
    ensures |MapperLinesOf(e)| + |DiagnosticsOf(e)| == 1
    ensures |MapperLinesOf(e)| == 1 <==> e.parent.NamespaceDeclaration?
  {
  }

  /**
   * Partial-failure isolation: what a run over `a + b` writes is what a run
   * over `a` writes followed by what a run over `b` writes, for mapper lines
   * and diagnostics alike.
   */
  lemma MapAppend(a: seq<ClassDecl>, b: seq<ClassDecl>)
    ensures MapperLines(a + b) == MapperLines(a) + MapperLines(b)
    ensures MissingNamespaceDiagnostics(a + b) == MissingNamespaceDiagnostics(a) + MissingNamespaceDiagnostics(b)
  {
    FlatMapAppend(a, b, MapperLinesOf);
    FlatMapAppend(a, b, DiagnosticsOf);
  }

  /** Every entity yields exactly one of a mapper line and a diagnostic. */
  lemma {:induction false} MapPairing(es: seq<ClassDecl>)
    ensures |MapperLines(es)| + |MissingNamespaceDiagnostics(es)| == |es|
    decreases |es|
  {
    if |es| > 0 {
      MapPairing(es[..|es| - 1]);
      EntityYieldsOne(es[|es| - 1]);
    }
  }

  /** Entity k's own contribution sits between those of the entities before and after it. */
  lemma MapContribution(es: seq<ClassDecl>, k: nat)
    requires k < |es|
    ensures MapperLines(es) == MapperLines(es[..k]) + MapperLinesOf(es[k]) + MapperLines(es[k + 1..])
    ensures MissingNamespaceDiagnostics(es) ==
      MissingNamespaceDiagnostics(es[..k]) + DiagnosticsOf(es[k]) + MissingNamespaceDiagnostics(es[k + 1..])
  {
    FlatMapAt(es, k, MapperLinesOf);
    FlatMapAt(es, k, DiagnosticsOf);
  }

  /** Every mapper line is written one level in. */
  lemma {:induction false} MapperLinesIndented(es: seq<ClassDecl>)
    ensures forall l :: l in MapperLines(es) ==> l.indent == 1
    decreases |es|
  {
    if |es| > 0 {
      MapperLinesIndented(es[..|es| - 1]);
    }
  }

  /** Every diagnostic is an SG0001 for one of the entities whose parent is not a namespace declaration. */
  lemma {:induction false} DiagnosticsAreMissingNamespaces(es: seq<ClassDecl>, d: Diagnostic)
    requires d in MissingNamespaceDiagnostics(es)
    ensures d == MissingNamespace(d.location) && d.location in es && !d.location.parent.NamespaceDeclaration?
    decreases |es|
  {
    var init := es[..|es| - 1];
    if d in MissingNamespaceDiagnostics(init) {
      DiagnosticsAreMissingNamespaces(init, d);
      assert d.location in init;
    }
  }

  /** Writes one record line per entity, in order. */
  method GenerateAllDto(entityClasses: seq<ClassDecl>) returns (lines: seq<Line>)
    ensures |lines| == |entityClasses|
    ensures forall k :: 0 <= k < |entityClasses| ==>
      lines[k] == Line(0, RecordLine(entityClasses[k].identifier, Retained(entityClasses[k].members)))
  {
    lines := [];
    for i := 0 to |entityClasses|
      invariant |lines| == i
      invariant forall k :: 0 <= k < i ==> lines[k] == Line(0, DtoText(entityClasses[k]))
    {
      var classDeclaration := entityClasses[i];
      var className := classDeclaration.identifier;
      var props := GetAllProperties(classDeclaration);
      var text := FormatRecordClassMember(className, props);
      lines := lines + [Line(0, text)];
    }
  }

  /**
   * Writes the mapper class: header and "{", then one level in, per entity
   * either its mapper line (parent is a namespace declaration) or an SG0001
   * diagnostic, then back to level 0 and "}".
   */
  method GenerateAllMap(entityClasses: seq<ClassDecl>) returns (lines: seq<Line>, diagnostics: seq<Diagnostic>)
    ensures lines == MapArtifact(entityClasses)
    ensures diagnostics == MissingNamespaceDiagnostics(entityClasses)
  {
    var indent: nat := 0;
    lines := [Line(indent, MapperClassHeader)];
    lines := lines + [Line(indent, "{")];
    indent := indent + 1;
    diagnostics := [];
    for i := 0 to |entityClasses|
      invariant indent == 1
      invariant lines == [Line(0, MapperClassHeader), Line(0, "{")] + MapperLines(entityClasses[..i])
      invariant diagnostics == MissingNamespaceDiagnostics(entityClasses[..i])
    {
      FlatMapSnoc(entityClasses, i, MapperLinesOf);
      FlatMapSnoc(entityClasses, i, DiagnosticsOf);
      var classDeclaration := entityClasses[i];
      var className := classDeclaration.identifier;
      match classDeclaration.parent {
        case NamespaceDeclaration(namespaceName) =>
          var fullClassName := namespaceName + "." + className;
          var props := GetAllProperties(classDeclaration);
          var text := FormatClassMapExtension(className, fullClassName, props);
          lines := lines + [Line(indent, text)];
        case _ =>
          diagnostics := diagnostics + [MissingNamespace(classDeclaration)];
      }
    }
    assert entityClasses[..|entityClasses|] == entityClasses;
    indent := indent - 1;
    lines := lines + [Line(indent, "}")];
  }

  // ---------------------------------------------------------------------------
  // One generator pass

  /** What Execute hands to the compiler for a discovered entity list. */
  function ExpectedOutput(es: seq<ClassDecl>): GeneratorOutput
  {
    GeneratorOutput([Source(DtoHintName, DtoLines(es)), Source(MapHintName, MapArtifact(es))],
                    MissingNamespaceDiagnostics(es))
  }

  /** Builds both artifacts from the receiver's list and adds them, records first. */
  method Execute(ctxr: EntitySyntaxRec) returns (output: GeneratorOutput)
    ensures output == ExpectedOutput(ctxr.entityClasses)
  {
    var generatedDto := GenerateAllDto(ctxr.entityClasses);
    var generatedDtoMap, diagnostics := GenerateAllMap(ctxr.entityClasses);
    assert generatedDto == DtoLines(ctxr.entityClasses);
    output := GeneratorOutput([Source(DtoHintName, generatedDto), Source(MapHintName, generatedDtoMap)], diagnostics);
  }

  /** The compiler's side of a pass: a fresh receiver visits every node, then Execute runs. */
  method RunGenerator(nodes: seq<SyntaxNode>) returns (output: GeneratorOutput)
    ensures output == ExpectedOutput(Discover(nodes))
  {
    var receiver := new EntitySyntaxRec();
    for i := 0 to |nodes|
      invariant receiver.entityClasses == Discover(nodes[..i])
    {
      assert nodes[..i + 1][..i] == nodes[..i];
      receiver.OnVisitSyntaxNode(nodes[i]);
    }
    assert nodes[..|nodes|] == nodes;
    output := Execute(receiver);
  }

  /**
   * The pairing invariant of a pass: every entity gets its record line at its
   * position; one with a namespace declaration as parent gets its mapper line,
   * any other gets one SG0001 diagnostic; the counts add up.
   */
  lemma Pairing(es: seq<ClassDecl>, k: nat)
    requires k < |es|
    ensures var out := ExpectedOutput(es);
      && |out.sources| == 2
      && out.sources[0].lines[k] == Line(0, RecordLine(es[k].identifier, Retained(es[k].members)))
      && (es[k].parent.NamespaceDeclaration? ==>
            Line(1, MapperLine(es[k].identifier, es[k].parent.name + "." + es[k].identifier, Retained(es[k].members)))
              in out.sources[1].lines)
      && (!es[k].parent.NamespaceDeclaration? ==> MissingNamespace(es[k]) in out.diagnostics)
      && |out.sources[1].lines| - 3 + |out.diagnostics| == |es|
  {
    MapContribution(es, k);
    MapPairing(es);
    if es[k].parent.NamespaceDeclaration? {
      assert MapperLinesOf(es[k])[0] in MapperLines(es);
    } else {
      assert DiagnosticsOf(es[k])[0] in MissingNamespaceDiagnostics(es);
    }
  }

  /**
   * Field-order consistency for one entity: its record declares, and (when it
   * has a namespace declaration as parent) its mapper copies, exactly the
   * identifiers of its retained properties, in member order.
   */
  lemma EntityFieldOrder(e: ClassDecl)
    requires Plain(Retained(e.members))
    ensures RecordFields(e.identifier, DtoText(e)) == Some(Identifiers(Retained(e.members)))
    ensures e.parent.NamespaceDeclaration? ==>
      |MapperLinesOf(e)| == 1 &&
      MapperFields(e.identifier, e.parent.name + "." + e.identifier, MapperLinesOf(e)[0].text)
        == Some(Identifiers(Retained(e.members)))
  {
    var full := if e.parent.NamespaceDeclaration? then e.parent.name + "." + e.identifier else e.identifier;
    FieldOrderConsistency(e.identifier, full, Retained(e.members));
  }
}

/** What the generator's definitions give for the example project's Person class. */
module SourceGeneratorExamples {
  import opened Wrappers
  import opened Text
  import opened CodeAnalysis
  import opened DtoSyntax
  import opened Sequences
  import opened SourceGenerator

  /** The Person class of the example project, with Age marked [NoDto]. */
  function Person(): ClassDecl
  {
    ClassDecl("Person", NamespaceDeclaration("XeDotNet.SourceGeneratorExample.Domain"),
      [PropertyMember(Property("int", "Id", [])),
       PropertyMember(Property("string", "FirstName", [])),
       PropertyMember(Property("string", "LastName", [])),
       PropertyMember(Property("int", "Age", [AttributeList("[NoDto]", ["NoDto"])]))])
  }

  function PersonDtoProperties(): seq<Property>
  {
    [Property("int", "Id", []), Property("string", "FirstName", []), Property("string", "LastName", [])]
  }

  lemma NoDtoMarks()
    ensures IsNoDto(Property("int", "Age", [AttributeList("[NoDto]", ["NoDto"])]))
    ensures forall t, i :: !IsNoDto(Property(t, i, []))
  {
    var lists := [AttributeList("[NoDto]", ["NoDto"])];
    assert Trim("NoDto") == NoDtoName by {
      assert !IsWhiteSpace('N') && !IsWhiteSpace('o');
    }
    assert "NoDto" in AttributeNames(lists) by {
      assert lists[0].attributeNames[0] == "NoDto";
    }
  }

  lemma RetainedSnoc(ms: seq<Member>, m: Member)
    ensures Retained(ms + [m]) == Retained(ms) + RetainedOne(m)
  {
    RetainedAppend(ms, [m]);
    FlatMapSingle(m, RetainedOne);
  }

  /** Id, FirstName and LastName carry no attribute list and are kept. */
  lemma PersonKeptJudged(person: ClassDecl, ps: seq<Property>)
    requires person == Person() && ps == PersonDtoProperties()
    ensures RetainedOne(person.members[0]) == [ps[0]]
    ensures RetainedOne(person.members[1]) == [ps[1]]
    ensures RetainedOne(person.members[2]) == [ps[2]]
  {
    NoDtoMarks();
  }

  /** Age carries [NoDto] and is left out. */
  lemma PersonAgeJudged(person: ClassDecl)
    requires person == Person()
    ensures RetainedOne(person.members[3]) == []
  {
    NoDtoMarks();
  }

  /** Four members judged one by one: three kept, the last left out. */
  lemma RetainedOfFour(ms: seq<Member>, a: Property, b: Property, c: Property)
    requires |ms| == 4
    requires RetainedOne(ms[0]) == [a] && RetainedOne(ms[1]) == [b] && RetainedOne(ms[2]) == [c]
    requires RetainedOne(ms[3]) == []
    ensures Retained(ms) == [a, b, c]
  {
    RetainedSnoc([], ms[0]);
    RetainedSnoc(ms[..1], ms[1]);
    RetainedSnoc(ms[..2], ms[2]);
    RetainedSnoc(ms[..3], ms[3]);
    assert [] + [ms[0]] == ms[..1];
    assert ms[..1] + [ms[1]] == ms[..2];
    assert ms[..2] + [ms[2]] == ms[..3];
    assert ms[..3] + [ms[3]] == ms;
  }

  /** Age, marked [NoDto], is the one property the DTO does not carry. */
  lemma PersonRetained()
    ensures Retained(Person().members) == PersonDtoProperties()
  {
    var person, ps := Person(), PersonDtoProperties();
    PersonKeptJudged(person, ps);
    PersonAgeJudged(person);
    RetainedOfFour(person.members, ps[0], ps[1], ps[2]);
  }

  /** The retained Person properties are plain, and carry Id, FirstName and LastName. */
  lemma PersonDtoPropertiesPlain()
    ensures Plain(PersonDtoProperties())
    ensures Identifiers(PersonDtoProperties()) == ["Id", "FirstName", "LastName"]
  {
    var props := PersonDtoProperties();
    assert forall k :: 0 <= k < 3 ==> ',' !in props[k].typeText && ',' !in props[k].identifier && ' ' !in props[k].identifier;
  }

  /** The record line of a class with three properties, written out. */
  lemma RecordLineOfThree(name: string, t0: string, i0: string, t1: string, i1: string, t2: string, i2: string)
    ensures RecordLine(name, [Property(t0, i0, []), Property(t1, i1, []), Property(t2, i2, [])])
      == "public record " + name + "Dto (" + (t0 + " " + i0) + ", " + (t1 + " " + i1) + ", " + (t2 + " " + i2) + ");"
  {
    var ps := Parameters([Property(t0, i0, []), Property(t1, i1, []), Property(t2, i2, [])]);
    assert ps[1..][1..] == [ps[2]];
    assert Join(ps[1..]) == ps[1] + Sep + ps[2];
  }

  /** The mapper line of a class with three properties, written out. */
  lemma MapperLineOfThree(name: string, fullClassName: string, t0: string, i0: string, t1: string, i1: string, t2: string, i2: string)
    ensures MapperLine(name, fullClassName, [Property(t0, i0, []), Property(t1, i1, []), Property(t2, i2, [])])
      == ("public static " + name + "Dto ToDto(this ") + fullClassName + (" entity) => new " + name + "Dto(")
        + ("entity." + i0) + ", " + ("entity." + i1) + ", " + ("entity." + i2) + ");"
  {
    var args := Arguments([Property(t0, i0, []), Property(t1, i1, []), Property(t2, i2, [])]);
    assert args[1..][1..] == [args[2]];
    assert Join(args[1..]) == args[1] + Sep + args[2];
  }

  /** The record text for Person's name and retained properties, one literal per entry. */
  lemma PersonRecordText()
    ensures RecordLine("Person", PersonDtoProperties())
      == "public record PersonDto (" + "int Id" + ", " + "string FirstName" + ", " + "string LastName" + ");"
  {
    RecordLineOfThree("Person", "int", "Id", "string", "FirstName", "string", "LastName");
    assert "public record " + "Person" + "Dto (" == "public record PersonDto (";
    assert "int" + " " + "Id" == "int Id";
    assert "string" + " " + "FirstName" == "string FirstName";
    assert "string" + " " + "LastName" == "string LastName";
  }

  /** The mapper text for Person's qualified name and retained properties, one literal per argument. */
  lemma PersonMapperText()
    ensures MapperLine("Person", "XeDotNet.SourceGeneratorExample.Domain" + "." + "Person", PersonDtoProperties())
      == "public static PersonDto ToDto(this " + "XeDotNet.SourceGeneratorExample.Domain.Person" + " entity) => new PersonDto("
        + "entity.Id" + ", " + "entity.FirstName" + ", " + "entity.LastName" + ");"
  {
    var full := "XeDotNet.SourceGeneratorExample.Domain" + "." + "Person";
    MapperLineOfThree("Person", full, "int", "Id", "string", "FirstName", "string", "LastName");
    assert "entity." + "Id" == "entity.Id";
    assert "entity." + "FirstName" == "entity.FirstName";
    assert "entity." + "LastName" == "entity.LastName";
    assert "public static " + "Person" + "Dto ToDto(this " == "public static PersonDto ToDto(this ";
    assert full == "XeDotNet.SourceGeneratorExample.Domain.Person";
    assert " entity) => new " + "Person" + "Dto(" == " entity) => new PersonDto(";
  }

  /** The exact record line the full generator writes for Person. */
  lemma PersonRecordLine(person: ClassDecl)
    requires person == Person()
    ensures DtoText(person)
      == "public record PersonDto (" + "int Id" + ", " + "string FirstName" + ", " + "string LastName" + ");"
  {
    PersonRetained();
    PersonRecordText();
  }

  /**
   * The exact mapper line the full generator writes for Person, at indent 1
   * and written against the namespace-qualified class.
   */
  lemma PersonMapperLine(person: ClassDecl)
    requires person == Person()
    ensures MapperLinesOf(person) == [Line(1,
      "public static PersonDto ToDto(this " + "XeDotNet.SourceGeneratorExample.Domain.Person" + " entity) => new PersonDto("
      + "entity.Id" + ", " + "entity.FirstName" + ", " + "entity.LastName" + ");")]
  {
    PersonRetained();
    PersonMapperText();
  }

  /**
   * The example project's Person class: its record declares, and its mapper
   * copies, Id, FirstName and LastName in that order, and Age is left out.
   */
  lemma PersonExample(person: ClassDecl)
    requires person == Person()
    ensures RecordFields(person.identifier, DtoText(person)) == Some(["Id", "FirstName", "LastName"])
    ensures |MapperLinesOf(person)| == 1
    ensures MapperFields(person.identifier, person.parent.name + "." + person.identifier, MapperLinesOf(person)[0].text)
      == Some(["Id", "FirstName", "LastName"])
  {
    PersonRetained();
    PersonDtoPropertiesPlain();
    EntityFieldOrder(person);
  }
}
