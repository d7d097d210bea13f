/** The definition rows of the add-word form (`useVocabularyForm`): a list
    of (part of speech, definition) entries that never becomes empty and
    whose ids number the entries from zero. */
module DefinitionForm {

  datatype DefinitionField = DefinitionField(id: int, partOfSpeech: string, definition: string)

  datatype Field = PartOfSpeechField | DefinitionTextField

  /** Entry `i` carries id `i`, and there is at least one entry. */
  ghost predicate WellNumbered(defs: seq<DefinitionField>)
  {
    |defs| >= 1 && forall i :: 0 <= i < |defs| ==> defs[i].id == i
  }

  function EmptyField(id: int): DefinitionField
  {
    DefinitionField(id, "", "")
  }

  const InitialFields: seq<DefinitionField> := [EmptyField(0)]

  /** `addDefinitionField`: one blank entry after the others, numbered by
      the old length. */
  function Added(defs: seq<DefinitionField>): (r: seq<DefinitionField>)
    ensures |r| == |defs| + 1 && r[..|defs|] == defs
    ensures r[|defs|] == EmptyField(|defs|)
  {
    defs + [EmptyField(|defs|)]
  }

  /** `removeDefinitionField`: drops the last entry, unless it is the only one. */
  function Removed(defs: seq<DefinitionField>): (r: seq<DefinitionField>)
    ensures |defs| > 1 ==> |r| == |defs| - 1 && r == defs[..|r|]
    ensures |defs| <= 1 ==> r == defs
  {
    if |defs| > 1 then defs[..|defs| - 1] else defs
  }

  /** `handleDefinitionChange`: sets one field of the entry at `index`;
      an index outside the list changes nothing. */
  function Changed(defs: seq<DefinitionField>, index: int, field: Field, value: string): (r: seq<DefinitionField>)
    ensures |r| == |defs|
    ensures forall i :: 0 <= i < |defs| && i != index ==> r[i] == defs[i]
    ensures 0 <= index < |defs| && field == PartOfSpeechField ==> r[index] == defs[index].(partOfSpeech := value)
    ensures 0 <= index < |defs| && field == DefinitionTextField ==> r[index] == defs[index].(definition := value)
    ensures !(0 <= index < |defs|) ==> r == defs
  {
    seq(|defs|, i requires 0 <= i < |defs| =>
      if i == index then
        (match field
         case PartOfSpeechField => defs[i].(partOfSpeech := value)
         case DefinitionTextField => defs[i].(definition := value))
      else defs[i])
  }

  lemma InitialWellNumbered()
    ensures WellNumbered(InitialFields)
  {
  }

  /** Every edit keeps the entries numbered by position and the list non-empty. */
  lemma EditsKeepNumbering(defs: seq<DefinitionField>, index: int, field: Field, value: string)
    requires WellNumbered(defs)
    ensures WellNumbered(Added(defs))
    ensures WellNumbered(Removed(defs))
    ensures WellNumbered(Changed(defs, index, field, value))
  {
    var r := Removed(defs);
    assert forall i :: 0 <= i < |r| ==> r[i] == defs[i];
  }

  /** Removing undoes adding. */
  lemma RemoveUndoesAdd(defs: seq<DefinitionField>)
    requires |defs| >= 1
    ensures Removed(Added(defs)) == defs
  {
  }

  class DefinitionForm {
    var definitions: seq<DefinitionField>

    ghost predicate Valid()
      reads this
    {
      WellNumbered(definitions)
    }

    constructor()
      ensures definitions == InitialFields && Valid()
    {
      definitions := InitialFields;
    }

    method AddDefinitionField()
      requires Valid()
      modifies this
      ensures definitions == Added(old(definitions)) && Valid()
    {
      EditsKeepNumbering(definitions, 0, DefinitionTextField, "");
      definitions := definitions + [EmptyField(|definitions|)];
    }

    method RemoveDefinitionField()
      requires Valid()
      modifies this
      ensures definitions == Removed(old(definitions)) && Valid()
    {
      EditsKeepNumbering(definitions, 0, DefinitionTextField, "");
      if |definitions| > 1 {
        definitions := definitions[..|definitions| - 1];
      }
    }

    method HandleDefinitionChange(index: int, field: Field, value: string)
      requires Valid()
      modifies this
      ensures definitions == Changed(old(definitions), index, field, value) && Valid()
    {
      EditsKeepNumbering(definitions, index, field, value);
      if 0 <= index < |definitions| {
        var item := definitions[index];
        match field
        case PartOfSpeechField => definitions := definitions[index := item.(partOfSpeech := value)];
        case DefinitionTextField => definitions := definitions[index := item.(definition := value)];
      }
    }
  }
}
