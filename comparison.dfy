/**
 * The two generators side by side: which properties each leaves out, and
 * when the two record lines they write for an entity coincide.
 */
module GeneratorComparison {
  import opened Text
  import opened CodeAnalysis
  import opened DtoSyntax
  import Full = SourceGenerator
  import Early = SourceGeneratorDto

  /**
   * An attribute list written the usual way: its text is its attribute
   * names between brackets, separated by ", ", and each name is a non-empty
   * text without a comma.
   */
  predicate Canonical(l: AttributeList)
  {
    && l.text == "[" + Join(l.attributeNames) + "]"
    && forall k :: 0 <= k < |l.attributeNames| ==> |l.attributeNames[k]| > 0 && ',' !in l.attributeNames[k]
  }

  predicate CanonicalLists(p: Property)
  {
    forall i :: 0 <= i < |p.attributeLists| ==> Canonical(p.attributeLists[i])
  }

  lemma BracketedJoin(l: AttributeList)
    requires Canonical(l) && l.text == Early.NoDtoListText
    ensures l.attributeNames == [Full.NoDtoName]
  {
    var j := Join(l.attributeNames);
    var s := "[" + j + "]";
    assert s[1..|s| - 1] == j;
    assert j == Full.NoDtoName;
    SplitJoin(l.attributeNames);
    SplitPiecesLast(Full.NoDtoName);
  }

  lemma TrimNoDto()
    ensures Trim(Full.NoDtoName) == Full.NoDtoName
  {
    assert !IsWhiteSpace('N') && !IsWhiteSpace('o');
  }

  /**
   * On usually written attribute lists the earlier rule is the stricter one:
   * a property the earlier generator leaves out, the later one leaves out too.
   */
  lemma EarlyExclusionImpliesFull(p: Property)
    requires CanonicalLists(p)
    ensures Early.IsNoDto(p) ==> Full.IsNoDto(p)
  {
    if Early.IsNoDto(p) {
      var i :| 0 <= i < |p.attributeLists| && p.attributeLists[i].text == Early.NoDtoListText;
      BracketedJoin(p.attributeLists[i]);
      assert Full.NoDtoName in p.attributeLists[i].attributeNames;
      assert Full.NoDtoName in Full.AttributeNames(p.attributeLists);
      TrimNoDto();
    }
  }

  /** So every property the later generator keeps, the earlier one keeps as well. */
  lemma FullRetainedAreEarlyRetained(members: seq<Member>, p: Property)
    requires CanonicalLists(p)
    ensures p in Full.Retained(members) ==> p in Early.Retained(members)
  {
    Full.RetainedMembership(members, p);
    Early.RetainedMembership(members, p);
    EarlyExclusionImpliesFull(p);
  }

  /** An attribute named NoDto in any list excludes the property in the full generator. */
  lemma FullExcludesNamed(p: Property, i: nat, j: nat)
    requires i < |p.attributeLists| && j < |p.attributeLists[i].attributeNames|
    requires p.attributeLists[i].attributeNames[j] == Full.NoDtoName
    ensures Full.IsNoDto(p)
  {
    assert Full.NoDtoName in p.attributeLists[i].attributeNames;
    assert Full.NoDtoName in Full.AttributeNames(p.attributeLists);
    TrimNoDto();
  }

  /** A written list naming NoDto and at least one more attribute is longer than `[NoDto]`. */
  lemma CombinedListText(l: AttributeList, j: nat)
    requires Canonical(l) && |l.attributeNames| >= 2
    requires j < |l.attributeNames| && l.attributeNames[j] == Full.NoDtoName
    ensures l.text != Early.NoDtoListText
  {
    JoinLength(l.attributeNames, j);
    assert |l.text| == |Join(l.attributeNames)| + 2;
    assert |Early.NoDtoListText| == 7;
  }

  /** With one attribute list, the earlier generator's rule reads that list's text alone. */
  lemma EarlySingleList(p: Property)
    requires |p.attributeLists| == 1
    ensures Early.IsNoDto(p) <==> p.attributeLists[0].text == Early.NoDtoListText
  {
    if Early.IsNoDto(p) {
      var i :| 0 <= i < |p.attributeLists| && p.attributeLists[i].text == Early.NoDtoListText;
      assert i == 0;
    }
  }

  /**
   * A single list that names NoDto together with further attributes, such as
   * `[NoDto, Key]` or `[Key, NoDto]`, excludes the property in the full
   * generator only.
   */
  lemma CombinedListDiffers(p: Property)
    requires CanonicalLists(p) && |p.attributeLists| == 1
    requires |p.attributeLists[0].attributeNames| >= 2
    requires exists j :: 0 <= j < |p.attributeLists[0].attributeNames| && p.attributeLists[0].attributeNames[j] == Full.NoDtoName
    ensures Full.IsNoDto(p) && !Early.IsNoDto(p)
  {
    var l := p.attributeLists[0];
    var j :| 0 <= j < |l.attributeNames| && l.attributeNames[j] == Full.NoDtoName;
    FullExcludesNamed(p, 0, j);
    CombinedListText(l, j);
    EarlySingleList(p);
  }

  /**
   * When the two filters keep the same properties, the class name has no
   * comma and those properties are unambiguous, the two generators write
   * the same record line.
   */
  lemma SameRecordLine(e: ClassDecl)
    requires Full.Retained(e.members) == Early.Retained(e.members)
    requires ',' !in e.identifier && Early.Unambiguous(Early.Retained(e.members))
    ensures Early.DtoText(e) == Full.DtoText(e)
  {
    Early.RecordLineAgreement(e.identifier, Early.Retained(e.members));
  }
}
