# DTO source generators, modelled in Dafny

The repository holds two Roslyn source generators that turn "entity" classes
(classes whose symbol implements an interface named `IEntity`) into C# text.

- `XeDotNet.SourceGenerator/DtoGenerator.cs`, the full generator. Its
  syntax receiver `EntitySyntaxRec` collects the entity classes in visit
  order. `GetAllPropertues` keeps each property that carries no attribute
  whose trimmed name is `NoDto`. `FormatRecordClassMember` writes
  `public record NDto (T1 f1, T2 f2);` and `FormatClassMapExtension` writes
  `public static NDto ToDto(this Q entity) => new NDto(entity.f1, entity.f2);`.
  `GenerateAllDto` writes one record per entity. `GenerateAllMap` writes the
  class `GeneratedDtoMapper`, with one mapper line per entity whose parent
  node is a namespace declaration, and reports an `SG0001` error for every
  other entity. `Execute` adds the sources `GeneratedDto` and
  `GeneratedDtoMap`.
- `XeDotNet.SourceGeneratorDto/DtoGenerator.cs`, an earlier variant that
  writes records only. It leaves out a property when one of its attribute
  lists reads exactly `[NoDto]`. It builds a record by appending every
  `Type identifier, ` after the head and then ");", and then replacing
  ", );" by ");". It adds one source, `DtoGen`.

The Dafny files:

- `code_analysis.dfy`: module `CodeAnalysis` holds what the generators read
  from the compiler (class declarations, parents, members, attribute lists,
  resolved interface names) and what they hand back (sources of indented
  lines, diagnostics). Module `EntityDiscovery` holds the entity rule both
  receivers share.
- `text.dfy`: module `Text` holds the ", " join, the "item then separator"
  buffer the loops build, a left-to-right `Replace` like
  `StringBuilder.Replace`, and `Trim`. `Split` and `LastWord` read a
  generated list back. Module `Sequences` holds a generic `FlatMap`.
- `dto_syntax.dfy`: module `DtoSyntax` holds the record and mapper lines in
  joined form, readers that take the field names back out of a line, and the
  field-order consistency lemma.
- `source_generator.dfy`: module `SourceGenerator` is the full generator.
  The receiver is a class with a `modifies` frame. The `StringBuilder` and
  `IndentedTextWriter` locals become a string buffer, a sequence of
  (indent, text) lines and an indent counter, updated in the same loops as
  the C#. Every method is proved equal to a specification function, and the
  lemmas state what those functions promise. Module `SourceGeneratorExamples`
  proves what the definitions give for the example project's `Person` class.
- `source_generator_dto.dfy`: module `SourceGeneratorDto` is the earlier
  variant, written the same way.
- `comparison.dfy`: module `GeneratorComparison` compares the two
  generators' exclusion rules and their record lines.

Three details of the code shape the model:

- The record head is `public record NDto (`, with a space before the
  parenthesis, so the empty record is `public record NDto ();`.
- The full generator trims white space around an attribute's name before
  comparing it with `NoDto`. The name match is therefore not exact.
- Only a parent of kind `NamespaceDeclarationSyntax` gives a mapper line.
  A class in a file-scoped namespace, a nested class and a top-level class
  all get `SG0001`.

Determinism and idempotence of a pass follow from the `ensures` of
`RunGenerator`: its output is a function of the visited nodes alone.

## Model

| member | source | states |
|---|---|---|
| SourceGenerator.EntitySyntaxRec.constructor | XeDotNet.SourceGenerator/DtoGenerator.cs:174 | a new receiver holds no entity classes |
| SourceGenerator.EntitySyntaxRec.OnVisitSyntaxNode | XeDotNet.SourceGenerator/DtoGenerator.cs:176-191 | the list becomes the old list plus the visited class when the node is a class declaration whose symbol resolves and implements IEntity; otherwise it is unchanged |
| EntityDiscovery.Selected | XeDotNet.SourceGenerator/DtoGenerator.cs:179-189 | one visit adds at most one class; it adds exactly one iff the node is an entity, and that one is the node's declaration |
| EntityDiscovery.Discover | XeDotNet.SourceGenerator/DtoGenerator.cs:174-191 | the list after a sequence of visits is never longer than the sequence |
| EntityDiscovery.DiscoverAppend | XeDotNet.SourceGenerator/DtoGenerator.cs:176-191 | the list only grows, in visit order: visiting a then b yields the list of a followed by the list of b |
| EntityDiscovery.DiscoverMembership | XeDotNet.SourceGenerator/DtoGenerator.cs:176-191 | a declaration is in the list iff some visited node is an entity that declares it |
| EntityDiscovery.DiscoverIgnoresNonEntities | XeDotNet.SourceGenerator/DtoGenerator.cs:179-189 | visiting only non-entities leaves the list empty |
| SourceGenerator.AttributeNames | XeDotNet.SourceGenerator/DtoGenerator.cs:120 | a name is among the flattened attribute names iff it is in one of the attribute lists |
| Text.TrimStart | XeDotNet.SourceGenerator/DtoGenerator.cs:120 | the result is a suffix of the input, everything cut is white space, and it does not begin with white space |
| Text.TrimEnd | XeDotNet.SourceGenerator/DtoGenerator.cs:120 | the result is a prefix of the input, everything cut is white space, and it does not end with white space |
| Text.Trim | XeDotNet.SourceGenerator/DtoGenerator.cs:120 | the trimmed name is no longer than the name and neither begins nor ends with white space |
| SourceGenerator.RetainedAppend | XeDotNet.SourceGenerator/DtoGenerator.cs:116-122 | filtering members a then b keeps the properties of a followed by those of b: order is kept and members are judged one at a time |
| SourceGenerator.RetainedMembership | XeDotNet.SourceGenerator/DtoGenerator.cs:112-125 | a property is kept iff it is a property member of the class and none of its attributes has a trimmed name equal to NoDto; fields, methods and other members are never kept |
| SourceGenerator.GetAllProperties | XeDotNet.SourceGenerator/DtoGenerator.cs:112-125 | the list the loop fills is exactly the retained properties in declaration order |
| Text.TerminatedSnoc | XeDotNet.SourceGenerator/DtoGenerator.cs:133-139 | appending one more item and ", " to the buffer extends it by that item and separator |
| Text.TerminatedIsJoin | XeDotNet.SourceGenerator/DtoGenerator.cs:140 | removing the last two characters of a non-empty buffer leaves the items joined by ", " |
| SourceGenerator.FormatRecordClassMember | XeDotNet.SourceGenerator/DtoGenerator.cs:127-146 | the text is "public record " + name + "Dto (" + the "Type identifier" entries joined by ", " + ");", and with no properties it is "public record NDto ();" |
| SourceGenerator.FormatClassMapExtension | XeDotNet.SourceGenerator/DtoGenerator.cs:148-165 | the text is the ToDto head for name and fullClassName + the "entity.identifier" entries joined by ", " + ");", and with no properties the constructor call is "NDto()" |
| DtoSyntax.FieldOrderConsistency | XeDotNet.SourceGenerator/DtoGenerator.cs:127-165 | reading the fields back out of the record line and out of the mapper line gives, for both, exactly the property identifiers in the order of the properties |
| SourceGenerator.EntityFieldOrder | XeDotNet.SourceGenerator/DtoGenerator.cs:65-91 | for one entity, the record declares and the mapper (when written) copies exactly the identifiers of its retained properties, in member order |
| SourceGenerator.DtoLines | XeDotNet.SourceGenerator/DtoGenerator.cs:65-69 | the record artifact has one line per entity, and line k is entity k's record at indent 0 |
| SourceGenerator.GenerateAllDto | XeDotNet.SourceGenerator/DtoGenerator.cs:60-72 | the writer receives exactly one record line per entity, in discovery order, whatever the entity's parent |
| SourceGenerator.EntityYieldsOne | XeDotNet.SourceGenerator/DtoGenerator.cs:88-103 | each entity yields exactly one of a mapper line and a diagnostic, the mapper line iff its parent is a namespace declaration |
| SourceGenerator.MapAppend | XeDotNet.SourceGenerator/DtoGenerator.cs:83-104 | partial-failure isolation: the mapper lines and diagnostics of a followed by b are those of a followed by those of b |
| SourceGenerator.MapPairing | XeDotNet.SourceGenerator/DtoGenerator.cs:83-104 | mapper lines plus diagnostics number exactly the entities |
| SourceGenerator.MapContribution | XeDotNet.SourceGenerator/DtoGenerator.cs:83-104 | entity k's mapper line or diagnostic sits between those of the entities before it and those after it |
| SourceGenerator.MapperLinesIndented | XeDotNet.SourceGenerator/DtoGenerator.cs:81-91 | every mapper line is written one indent level in |
| SourceGenerator.DiagnosticsAreMissingNamespaces | XeDotNet.SourceGenerator/DtoGenerator.cs:93-103 | every diagnostic is the SG0001 error for an entity of the list whose parent is not a namespace declaration, carrying its class name |
| SourceGenerator.GenerateAllMap | XeDotNet.SourceGenerator/DtoGenerator.cs:74-110 | the lines are "public static class GeneratedDtoMapper", "{", the mapper lines at indent 1, then "}" back at indent 0, even with no entities; the diagnostics are the SG0001 errors in entity order |
| SourceGenerator.Execute | XeDotNet.SourceGenerator/DtoGenerator.cs:41-58 | the pass adds GeneratedDto and then GeneratedDtoMap, built from the receiver's list, and reports the SG0001 diagnostics |
| SourceGenerator.RunGenerator | XeDotNet.SourceGenerator/DtoGenerator.cs:38-58 | a fresh receiver that visits every node, followed by Execute, gives the output determined by the entities discovered among the nodes |
| SourceGenerator.Pairing | XeDotNet.SourceGenerator/DtoGenerator.cs:60-110 | entity k gets its record at position k; it gets its mapper line when its parent is a namespace declaration, and its SG0001 diagnostic otherwise; mapper lines plus diagnostics number the entities |
| SourceGeneratorExamples.NoDtoMarks | XeDotNet.SourceGeneratorExample/Domain/Person.cs:18-19 | the [NoDto] mark on Age excludes it, and a property without attributes is never excluded |
| SourceGeneratorExamples.PersonRetained | XeDotNet.SourceGeneratorExample/Domain/Person.cs:10-21 | Person's DTO carries Id, FirstName and LastName, and not Age |
| SourceGeneratorExamples.PersonExample | XeDotNet.SourceGeneratorExample/Domain/Person.cs:10-21 | Person's record declares, and its mapper copies, Id, FirstName and LastName in that order |
| SourceGeneratorExamples.RecordLineOfThree | XeDotNet.SourceGenerator/DtoGenerator.cs:127-146 | for three properties the record line is the head, the three "Type identifier" entries separated by ", ", and ");" |
| SourceGeneratorExamples.MapperLineOfThree | XeDotNet.SourceGenerator/DtoGenerator.cs:148-165 | for three properties the mapper line is the ToDto head, the three "entity.identifier" arguments separated by ", ", and ");" |
| SourceGeneratorExamples.PersonRecordLine | XeDotNet.SourceGeneratorExample/Domain/Person.cs:10-21 | Person's record line is exactly "public record PersonDto (int Id, string FirstName, string LastName);" |
| SourceGeneratorExamples.PersonMapperLine | XeDotNet.SourceGeneratorExample/Domain/Person.cs:8-21 | Person's one mapper line, at indent 1, is exactly "public static PersonDto ToDto(this XeDotNet.SourceGeneratorExample.Domain.Person entity) => new PersonDto(entity.Id, entity.FirstName, entity.LastName);" |
| SourceGeneratorDto.EntitySyntaxRec.constructor | XeDotNet.SourceGeneratorDto/DtoGenerator.cs:74 | a new receiver holds no entity classes |
| SourceGeneratorDto.EntitySyntaxRec.OnVisitSyntaxNode | XeDotNet.SourceGeneratorDto/DtoGenerator.cs:76-87 | the list becomes the old list plus the visited class when its symbol resolves and implements IEntity; otherwise it is unchanged |
| SourceGeneratorDto.RetainedAppend | XeDotNet.SourceGeneratorDto/DtoGenerator.cs:42-48 | filtering keeps member order and judges members one at a time |
| SourceGeneratorDto.RetainedMembership | XeDotNet.SourceGeneratorDto/DtoGenerator.cs:38-51 | a property is kept iff it is a property member and none of its attribute lists has the full text [NoDto] |
| SourceGeneratorDto.GetAllProperties | XeDotNet.SourceGeneratorDto/DtoGenerator.cs:38-51 | the list the loop fills is exactly the retained properties in declaration order |
| Text.ReplaceSkipsPrefix | XeDotNet.SourceGeneratorDto/DtoGenerator.cs:67 | a prefix without the pattern's first character passes through the replace untouched |
| Text.ReplaceClosing | XeDotNet.SourceGeneratorDto/DtoGenerator.cs:59-67 | replacing ", );" by ");" in the terminated, closed list gives the joined list closed by ");", when no item contains ", );" or begins with ");" |
| SourceGeneratorDto.RecordLineAgreement | XeDotNet.SourceGeneratorDto/DtoGenerator.cs:53-69 | for a class name without a comma and properties whose "Type identifier" text never contains ", );" and whose type text does not begin with ");" (commas, as in `Dictionary<string, int>`, are allowed), the append-then-replace record equals the joined record line |
| SourceGeneratorDto.FormatRecordClassMember | XeDotNet.SourceGeneratorDto/DtoGenerator.cs:53-69 | the text is the head, the terminated parameters and ");" after the replace; under the conditions above it is the joined record line, and with no properties and a class name without a comma (as every C# identifier is) it is "public record NDto ();" |
| SourceGeneratorDto.DtoLines | XeDotNet.SourceGeneratorDto/DtoGenerator.cs:23-26 | one line per entity, and line k is entity k's record at indent 0 |
| SourceGeneratorDto.Execute | XeDotNet.SourceGeneratorDto/DtoGenerator.cs:15-31 | the pass adds a single source DtoGen with one record line per discovered class in order, and reports nothing |
| SourceGeneratorDto.RunGenerator | XeDotNet.SourceGeneratorDto/DtoGenerator.cs:15-36 | a fresh receiver that visits every node, followed by Execute, gives the output determined by the entities discovered among the nodes |
| GeneratorComparison.EarlyExclusionImpliesFull | XeDotNet.SourceGeneratorDto/DtoGenerator.cs:46 | for attribute lists written as their names between brackets, a property the earlier generator excludes is excluded by the full one too |
| GeneratorComparison.FullRetainedAreEarlyRetained | XeDotNet.SourceGeneratorDto/DtoGenerator.cs:38-51 | for such lists, every property the full generator keeps, the earlier one keeps |
| GeneratorComparison.CombinedListDiffers | XeDotNet.SourceGeneratorDto/DtoGenerator.cs:46 | a single written list that names NoDto together with further attributes, such as [NoDto, Key] or [Key, NoDto], excludes the property in the full generator and not in the earlier one |
| GeneratorComparison.SameRecordLine | XeDotNet.SourceGeneratorDto/DtoGenerator.cs:53-69 | when both filters keep the same properties, the class name has no comma and no kept "Type identifier" text contains ", );" nor type text begins with ");", both generators write the same record line |

## Left out

- `Initialize`, the injected `attributeText` source (`NoDtoAttribute`) and the syntax-notification registration are host plumbing with no logic; `RunGenerator` stands for the host running a fresh receiver over the nodes and then `Execute`.
- Roslyn is not modelled. Symbol resolution and `AllInterfaces` become an optional list of interface names. An attribute's `Name.ToString()` and an attribute list's `ToString()` become given texts. `Type.ToString()` and `Identifier.ValueText` become given texts. A diagnostic's location is the class declaration itself.
- The byte-level output of `StringWriter` and `IndentedTextWriter` (newline and tab strings, `Flush`, `Close`, `Dispose`) is left out. An artifact is a sequence of (indent level, text) lines.
- The message formatting of `SG0001` (substituting the class name for `{0}`) is left out. A diagnostic carries its descriptor and its arguments.
- XeDotNet.SourceGeneratorExample/Program.cs only does console I/O. The Car class has the same shape as Person, so Person stands for both.
- `Text.IsWhiteSpace` lists the Unicode White_Space characters that `char.IsWhiteSpace` accepts. The character tables themselves are not modelled.
- DtoSyntax.FieldOrderConsistency: holds only for type texts without a comma and identifiers without a comma or space, because the field names are read back by splitting at ", "; a generic type such as `Dictionary<string, int>` is outside the statement.
- SourceGenerator.EntityFieldOrder: carries the same condition as the field-order lemma it rests on.
- SourceGeneratorDto.RecordLineAgreement: needs a class name without a comma, no "Type identifier" text containing ", );" and no type text beginning with ");". The last condition is needed: a second property typed `);x` makes the replace also remove the separator before it.
- Text.Trim: states the length bound and the white-space-free ends; the exact text kept follows from the contracts of `TrimStart` and `TrimEnd`.
- EntityDiscovery.Discover: its own contract gives only the length bound; membership and order are in `DiscoverMembership` and `DiscoverAppend`.
- Two entities with the same simple name in different namespaces produce clashing `Dto` names. The generators do not handle this, and the model does not either.
