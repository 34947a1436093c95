/**
 * The two lines generated per entity, in their joined form:
 *   public record NDto (T1 f1, T2 f2);
 *   public static NDto ToDto(this Q entity) => new NDto(entity.f1, entity.f2);
 * and the readers that take the field list back out of each, which show the
 * record and the mapper list the same fields in the same order.
 */
module DtoSyntax {
  import opened Wrappers
  import opened Text
  import opened CodeAnalysis

  /** The record parameters, one `Type identifier` per property, in order. */
  function Parameters(props: seq<Property>): (r: seq<string>)
    ensures |r| == |props|
  {
    seq(|props|, k requires 0 <= k < |props| => props[k].typeText + " " + props[k].identifier)
  }

  /** The constructor arguments of the mapper, one `entity.identifier` per property, in order. */
  function Arguments(props: seq<Property>): (r: seq<string>)
    ensures |r| == |props|
  {
    seq(|props|, k requires 0 <= k < |props| => "entity." + props[k].identifier)
  }

  function Identifiers(props: seq<Property>): (r: seq<string>)
    ensures |r| == |props|
  {
    seq(|props|, k requires 0 <= k < |props| => props[k].identifier)
  }

  function RecordHead(name: string): string
  {
    "public record " + name + "Dto ("
  }

  function MapperHead(name: string, fullClassName: string): string
  {
    "public static " + name + "Dto ToDto(this " + fullClassName + " entity) => new " + name + "Dto("
  }

  /** The DTO record line for class `name` with properties `props`. */
  function RecordLine(name: string, props: seq<Property>): string
  {
    RecordHead(name) + Join(Parameters(props)) + ");"
  }

  /** The ToDto extension method line for class `name`, written against `fullClassName`. */
  function MapperLine(name: string, fullClassName: string, props: seq<Property>): string
  {
    MapperHead(name, fullClassName) + Join(Arguments(props)) + ");"
  }

  /** The list between `head` and the closing ");", when the line has that shape. */
  function ListBetween(head: string, line: string): Option<string>
  {
    if |line| >= |head| + 2 && line[..|head|] == head && line[|line| - 2..] == ");"
    then Some(line[|head|..|line| - 2])
    else None
  }

  /** The field names a record line declares, read back from its text. */
  function RecordFields(name: string, line: string): Option<seq<string>>
  {
    match ListBetween(RecordHead(name), line)
    case None => None
    case Some(list) =>
      var ps := Split(list);
      Some(seq(|ps|, k requires 0 <= k < |ps| => LastWord(ps[k])))
  }

  /** The field names a mapper line copies, read back from its text. */
  function MapperFields(name: string, fullClassName: string, line: string): Option<seq<string>>
  {
    match ListBetween(MapperHead(name, fullClassName), line)
    case None => None
    case Some(list) =>
      var args := Split(list);
      Some(seq(|args|, k requires 0 <= k < |args| =>
        if |args[k]| >= 7 && args[k][..7] == "entity." then args[k][7..] else args[k]))
  }

  /** Identifiers with no comma or space, and type texts with no comma. */
  predicate Plain(props: seq<Property>)
  {
    forall k :: 0 <= k < |props| ==>
      ',' !in props[k].typeText && ',' !in props[k].identifier && ' ' !in props[k].identifier
  }

  lemma ListBetweenOf(head: string, list: string)
    ensures ListBetween(head, head + list + ");") == Some(list)
  {
    var line := head + list + ");";
    assert line[..|head|] == head;
    assert line[|line| - 2..] == ");";
    assert line[|head|..|line| - 2] == list;
  }

  /** The record line declares exactly the identifiers of `props`, in order. */
  lemma RecordFieldOrder(name: string, props: seq<Property>)
    requires Plain(props)
    ensures RecordFields(name, RecordLine(name, props)) == Some(Identifiers(props))
  {
    var ps := Parameters(props);
    forall k | 0 <= k < |ps| ensures |ps[k]| > 0 && ',' !in ps[k] {
      assert ps[k][|props[k].typeText|] == ' ';
    }
    ListBetweenOf(RecordHead(name), Join(ps));
    SplitJoin(ps);
    forall k | 0 <= k < |props| ensures LastWord(ps[k]) == props[k].identifier {
      LastWordAfterSpace(props[k].typeText, props[k].identifier);
    }
    var words := seq(|ps|, k requires 0 <= k < |ps| => LastWord(ps[k]));
    assert words == Identifiers(props);
    assert RecordLine(name, props) == RecordHead(name) + Join(ps) + ");";
    assert RecordFields(name, RecordLine(name, props)) == Some(words);
  }

  /** The mapper line copies exactly the identifiers of `props`, in order. */
  lemma MapperFieldOrder(name: string, fullClassName: string, props: seq<Property>)
    requires Plain(props)
    ensures MapperFields(name, fullClassName, MapperLine(name, fullClassName, props)) == Some(Identifiers(props))
  {
    var args := Arguments(props);
    forall k | 0 <= k < |args| ensures |args[k]| > 0 && ',' !in args[k] {
      assert args[k][..7] == "entity.";
    }
    ListBetweenOf(MapperHead(name, fullClassName), Join(args));
    SplitJoin(args);
    var fields := seq(|args|, k requires 0 <= k < |args| =>
      if |args[k]| >= 7 && args[k][..7] == "entity." then args[k][7..] else args[k]);
    forall k | 0 <= k < |props| ensures fields[k] == props[k].identifier {
      assert args[k][..7] == "entity.";
    }
    assert fields == Identifiers(props);
    assert MapperLine(name, fullClassName, props) == MapperHead(name, fullClassName) + Join(args) + ");";
    assert MapperFields(name, fullClassName, MapperLine(name, fullClassName, props)) == Some(fields);
  }

  /**
   * Field-order consistency: the record declares, and the mapper copies,
   * exactly the identifiers of `props`, in the order of `props`.
   */
  lemma FieldOrderConsistency(name: string, fullClassName: string, props: seq<Property>)
    requires Plain(props)
    ensures RecordFields(name, RecordLine(name, props)) == Some(Identifiers(props))
    ensures MapperFields(name, fullClassName, MapperLine(name, fullClassName, props)) == Some(Identifiers(props))
  {
    RecordFieldOrder(name, props);
    MapperFieldOrder(name, fullClassName, props);
  }
}
