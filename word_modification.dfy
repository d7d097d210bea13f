/** The memorize view's optimistic updates (`useWordModification`): the word
    list changes at once, the record is then sent to the database, and on
    failure only the memorized flag is put back. The database write itself
    (`updateVocabulary`) is modelled on a list of stored rows. */
module WordModification {
  import opened Common
  import VocabularyData

  /** `list.map(v => matches(v) ? f(v) : v)`. */
  function UpdateWhere(vs: seq<Vocabulary>, matches: Vocabulary -> bool,
                       f: Vocabulary -> Vocabulary): (r: seq<Vocabulary>)
    ensures |r| == |vs|
    ensures forall i :: 0 <= i < |vs| ==> r[i] == if matches(vs[i]) then f(vs[i]) else vs[i]
  {
    if vs == [] then []
    else [if matches(vs[0]) then f(vs[0]) else vs[0]] + UpdateWhere(vs[1..], matches, f)
  }

  function Bumped(v: Vocabulary): Vocabulary
  {
    v.(count := v.count + 1)
  }

  /** The local count update: every word carrying the id counts one more
      study; nothing else changes, in particular not `memorized`. */
  function IncrementCount(vs: seq<Vocabulary>, id: string): (r: seq<Vocabulary>)
    ensures |r| == |vs|
    ensures forall i :: 0 <= i < |vs| && vs[i].id == id ==>
              r[i].count == vs[i].count + 1 && r[i].(count := vs[i].count) == vs[i]
    ensures forall i :: 0 <= i < |vs| && vs[i].id != id ==> r[i] == vs[i]
    ensures forall i :: 0 <= i < |vs| ==> r[i].memorized == vs[i].memorized && r[i].id == vs[i].id
  {
    UpdateWhere(vs, (v: Vocabulary) => v.id == id, Bumped)
  }

  /** The local memorized toggle: every word carrying the id has its flag
      flipped; nothing else changes. */
  function FlipMemorized(vs: seq<Vocabulary>, id: string): (r: seq<Vocabulary>)
    ensures |r| == |vs|
    ensures forall i :: 0 <= i < |vs| && vs[i].id == id ==> r[i] == vs[i].(memorized := !vs[i].memorized)
    ensures forall i :: 0 <= i < |vs| && vs[i].id != id ==> r[i] == vs[i]
  {
    UpdateWhere(vs, (v: Vocabulary) => v.id == id, (v: Vocabulary) => v.(memorized := !v.memorized))
  }

  /** The rollback: every word carrying the id gets the flag it had when
      the toggle began. */
  function RestoreMemorized(vs: seq<Vocabulary>, id: string, m: bool): (r: seq<Vocabulary>)
    ensures |r| == |vs|
    ensures forall i :: 0 <= i < |vs| && vs[i].id == id ==> r[i] == vs[i].(memorized := m)
    ensures forall i :: 0 <= i < |vs| && vs[i].id != id ==> r[i] == vs[i]
  {
    UpdateWhere(vs, (v: Vocabulary) => v.id == id, (v: Vocabulary) => v.(memorized := m))
  }

  function Matching(vs: seq<Vocabulary>, id: string): seq<Vocabulary>
  {
    Filter(vs, (v: Vocabulary) => v.id == id)
  }

  /** The word as the list shows it: every entry with its id is this record. */
  ghost predicate ListedAs(vs: seq<Vocabulary>, word: Vocabulary)
  {
    forall i :: 0 <= i < |vs| && vs[i].id == word.id ==> vs[i] == word
  }

  /** A failed toggle leaves the list as it was, as long as the list showed
      the word with the flag it had when the toggle began. */
  lemma RollbackRestores(vs: seq<Vocabulary>, word: Vocabulary)
    requires forall i :: 0 <= i < |vs| && vs[i].id == word.id ==> vs[i].memorized == word.memorized
    ensures RestoreMemorized(FlipMemorized(vs, word.id), word.id, word.memorized) == vs
  {
    var r := RestoreMemorized(FlipMemorized(vs, word.id), word.id, word.memorized);
    assert forall i :: 0 <= i < |vs| ==> r[i] == vs[i];
  }

  /** Counting a study does not change which words are unmemorized: the
      filter sees the same words, each with its count raised. */
  lemma {:induction false} IncrementCommutesWithFilter(vs: seq<Vocabulary>, id: string)
    ensures VocabularyData.Unmemorized(IncrementCount(vs, id))
         == IncrementCount(VocabularyData.Unmemorized(vs), id)
  {
    if vs != [] {
      IncrementCommutesWithFilter(vs[1..], id);
      IncrementCons(vs, id);
      if !vs[0].memorized {
        var u := VocabularyData.Unmemorized(vs);
        assert u == [vs[0]] + VocabularyData.Unmemorized(vs[1..]);
        IncrementCons(u, id);
      }
    }
  }

  lemma IncrementCons(vs: seq<Vocabulary>, id: string)
    requires vs != []
    ensures IncrementCount(vs, id)
         == [if vs[0].id == id then Bumped(vs[0]) else vs[0]] + IncrementCount(vs[1..], id)
  {
  }

  /** Memorizing a word takes each of its entries off the unmemorized list. */
  lemma {:induction false} MemorizingShrinksUnmemorized(vs: seq<Vocabulary>, id: string)
    requires forall i :: 0 <= i < |vs| && vs[i].id == id ==> !vs[i].memorized
    ensures |VocabularyData.Unmemorized(FlipMemorized(vs, id))|
         == |VocabularyData.Unmemorized(vs)| - |Matching(vs, id)|
  {
    if vs != [] {
      MemorizingShrinksUnmemorized(vs[1..], id);
      assert FlipMemorized(vs, id)[1..] == FlipMemorized(vs[1..], id);
    }
  }

  /** The position after a successful toggle: back to the start when the
      filter is on, the word was unmemorized and the position was at or past
      the last place of the unmemorized list as it was before the toggle. */
  function OrderAfterToggle(order: nat, showOnlyUnmemorized: bool, word: Vocabulary,
                            filteredLength: nat): (r: nat)
    ensures r == 0 || r == order
    ensures r != order <==> showOnlyUnmemorized && !word.memorized && order >= filteredLength - 1 && order > 0
  {
    if showOnlyUnmemorized && !word.memorized && order >= filteredLength - 1 then 0 else order
  }

  /** Memorizing the one entry of a word while the filter is on keeps the
      position inside the unmemorized list that results, or that list is
      empty. */
  lemma OrderStaysInView(vs: seq<Vocabulary>, word: Vocabulary, order: nat)
    requires ListedAs(vs, word) && |Matching(vs, word.id)| == 1 && !word.memorized
    requires order < |VocabularyData.Unmemorized(vs)|
    ensures var after := VocabularyData.Unmemorized(FlipMemorized(vs, word.id));
            var r := OrderAfterToggle(order, true, word, |VocabularyData.Unmemorized(vs)|);
            r < |after| || |after| == 0
  {
    MemorizingShrinksUnmemorized(vs, word.id);
  }

  // -----------------------------------------------------------------------
  // The database write

  /** Rows are updated where both the word and the book agree. */
  function SameEntry(data: Vocabulary): Vocabulary -> bool
  {
    (v: Vocabulary) => v.word == data.word && v.book == data.book
  }

  /** `updateVocabulary` as written: the matching rows get the payload's
      count plus one, and nothing else is written. */
  function StoreUpdateAsWritten(rows: seq<Vocabulary>, data: Vocabulary): (r: seq<Vocabulary>)
    ensures |r| == |rows|
    ensures forall i :: 0 <= i < |rows| && SameEntry(data)(rows[i]) ==>
              r[i] == rows[i].(count := data.count + 1)
    ensures forall i :: 0 <= i < |rows| && !SameEntry(data)(rows[i]) ==> r[i] == rows[i]
  {
    UpdateWhere(rows, SameEntry(data), (v: Vocabulary) => v.(count := data.count + 1))
  }

  /** The write the handlers rely on: the matching rows take the payload's
      count and memorized flag as sent. */
  function StoreUpdate(rows: seq<Vocabulary>, data: Vocabulary): (r: seq<Vocabulary>)
    ensures |r| == |rows|
    ensures forall i :: 0 <= i < |rows| && SameEntry(data)(rows[i]) ==>
              r[i] == rows[i].(count := data.count, memorized := data.memorized)
    ensures forall i :: 0 <= i < |rows| && !SameEntry(data)(rows[i]) ==> r[i] == rows[i]
  {
    UpdateWhere(rows, SameEntry(data), (v: Vocabulary) => v.(count := data.count, memorized := data.memorized))
  }

  /** The count payload is the word with one more study, and the toggle
      payload the word with its flag flipped. */
  function CountPayload(word: Vocabulary): (p: Vocabulary)
    ensures p.count == word.count + 1 && p.(count := word.count) == word
  {
    Bumped(word)
  }

  function TogglePayload(word: Vocabulary): (p: Vocabulary)
    ensures p.memorized == !word.memorized && p.(memorized := word.memorized) == word
  {
    word.(memorized := !word.memorized)
  }

  const Sample: Vocabulary := Vocabulary("1", "run", "Basics", None, false, [], 0)

  /** As written, one study press stores a count two ahead of the word's
      count, while the screen shows one ahead. */
  lemma CountStoredTwiceAhead()
    ensures IncrementCount([Sample], Sample.id)[0].count == 1
    ensures StoreUpdateAsWritten([Sample], CountPayload(Sample))[0].count == 2
  {
  }

  /** As written, memorizing a word stores no flag and counts a study instead. */
  lemma MemorizedNotStored()
    ensures FlipMemorized([Sample], Sample.id)[0].memorized
    ensures var stored := StoreUpdateAsWritten([Sample], TogglePayload(Sample))[0];
            !stored.memorized && stored.count == 1
  {
  }

  /** With the write the handlers rely on, a stored row that held the word
      ends up as the word the screen shows after either handler. */
  lemma StoreFollowsScreen(rows: seq<Vocabulary>, vs: seq<Vocabulary>, word: Vocabulary, i: nat, j: nat)
    requires i < |rows| && rows[i] == word && j < |vs| && vs[j] == word
    ensures StoreUpdate(rows, CountPayload(word))[i] == IncrementCount(vs, word.id)[j]
    ensures StoreUpdate(rows, TogglePayload(word))[i] == FlipMemorized(vs, word.id)[j]
  {
    assert SameEntry(CountPayload(word))(rows[i]);
    assert SameEntry(TogglePayload(word))(rows[i]);
  }

  // -----------------------------------------------------------------------
  // The handlers

  /** The list this hook updates and the position it may reset; the filter
      flag and the unmemorized list are read from the other hooks. */
  class WordModification {
    var vocabularies: seq<Vocabulary>
    var order: nat

    constructor(vs: seq<Vocabulary>, order0: nat)
      ensures vocabularies == vs && order == order0
    {
      vocabularies := vs;
      order := order0;
    }

    /** `handleUpdateVocabulary`: count the study locally, then send the
        word with one more study. A failed write is only logged: the local
        count stays raised. */
    method HandleUpdateVocabulary(word: Vocabulary) returns (payload: Vocabulary)
      modifies this
      ensures vocabularies == IncrementCount(old(vocabularies), word.id)
      ensures payload == CountPayload(word)
      ensures order == old(order)
    {
      vocabularies := IncrementCount(vocabularies, word.id);
      payload := CountPayload(word);
    }

    /** `handleToggleMemorized`: flip the flag locally and send the word
        with its flag flipped. On success the position may go back to the
        start; on failure the flag is put back and the position kept. */
    method HandleToggleMemorized(word: Vocabulary, showOnlyUnmemorized: bool,
                                 filteredLength: nat, succeeded: bool)
      returns (payload: Vocabulary)
      modifies this
      ensures payload == TogglePayload(word)
      ensures succeeded ==> vocabularies == FlipMemorized(old(vocabularies), word.id)
      ensures succeeded ==> order == OrderAfterToggle(old(order), showOnlyUnmemorized, word, filteredLength)
      ensures !succeeded ==>
                vocabularies == RestoreMemorized(FlipMemorized(old(vocabularies), word.id), word.id, word.memorized)
      ensures !succeeded ==> order == old(order)
      ensures !succeeded && old(ListedAs(vocabularies, word)) ==> vocabularies == old(vocabularies)
    {
      vocabularies := FlipMemorized(vocabularies, word.id);
      payload := TogglePayload(word);
      if succeeded {
        if showOnlyUnmemorized && !word.memorized && order >= filteredLength - 1 {
          order := 0;
        }
      } else {
        vocabularies := RestoreMemorized(vocabularies, word.id, word.memorized);
        if ListedAs(old(vocabularies), word) {
          RollbackRestores(old(vocabularies), word);
        }
      }
    }
  }
}
