/** The word list page: a two-column table of the filtered words, optionally
    shuffled, with every definition hidden in "hide" mode until its word is
    clicked. */
module VocabularyList {
  import opened Common
  import Shuffle

  /** A table row: the left word is always there, the right one may be
      missing in the last row. */
  datatype Row = Row(left: Option<Vocabulary>, right: Option<Vocabulary>)

  /** Row `r` holds items `2r` and `2r + 1`; there are `ceil(n / 2)` rows. */
  function Rows(display: seq<Vocabulary>): (rows: seq<Row>)
    ensures |rows| == (|display| + 1) / 2
  {
    seq((|display| + 1) / 2, r requires 0 <= r < (|display| + 1) / 2 =>
      Row(Some(display[2 * r]), if 2 * r + 1 < |display| then Some(display[2 * r + 1]) else None))
  }

  function Cells(row: Row): seq<Vocabulary>
  {
    (if row.left.Some? then [row.left.value] else []) + (if row.right.Some? then [row.right.value] else [])
  }

  /** The words of the table read row by row, left to right. */
  function Flatten(rows: seq<Row>): seq<Vocabulary>
  {
    if rows == [] then [] else Cells(rows[0]) + Flatten(rows[1..])
  }

  lemma RowsUnfold(display: seq<Vocabulary>)
    requires |display| >= 2
    ensures Rows(display) == [Row(Some(display[0]), Some(display[1]))] + Rows(display[2..])
  {
    var rows := Rows(display);
    var tail := Rows(display[2..]);
    assert forall r :: 0 <= r < |tail| ==> rows[r + 1] == tail[r];
  }

  /** Every word appears in the table exactly once, in display order. */
  lemma {:induction false} TableShowsEveryWordOnce(display: seq<Vocabulary>)
    ensures Flatten(Rows(display)) == display
    decreases |display|
  {
    if |display| == 1 {
      assert Rows(display) == [Row(Some(display[0]), None)];
    } else if |display| >= 2 {
      RowsUnfold(display);
      TableShowsEveryWordOnce(display[2..]);
      assert Rows(display)[1..] == Rows(display[2..]);
      assert display == [display[0], display[1]] + display[2..];
    }
  }

  /** Clicking a word adds its id to the revealed set, or takes it out. */
  function ToggledId(clicked: set<string>, id: string): (r: set<string>)
    ensures id in r <==> id !in clicked
    ensures forall x :: x != id ==> (x in r <==> x in clicked)
  {
    if id in clicked then clicked - {id} else clicked + {id}
  }

  /** Clicking the same word twice restores the revealed set. */
  lemma ToggleTwiceRestores(clicked: set<string>, id: string)
    ensures ToggledId(ToggledId(clicked, id), id) == clicked
  {
  }

  class VocabularyList {
    var hideAll: bool
    var clicked: set<string>
    var isShuffled: bool

    constructor()
      ensures !hideAll && clicked == {} && !isShuffled
    {
      hideAll := false;
      clicked := {};
      isShuffled := false;
    }

    /** Whether a word's definitions are on screen. */
    predicate DefinitionsShown(id: string)
      reads this
    {
      !hideAll || id in clicked
    }

    /** `toggleHideAllDefinitions`: entering hide mode starts with every
        definition hidden; leaving it keeps the revealed set. */
    method ToggleHideAll()
      modifies this
      ensures hideAll == !old(hideAll)
      ensures hideAll ==> clicked == {} && forall id :: !DefinitionsShown(id)
      ensures !hideAll ==> clicked == old(clicked) && forall id :: DefinitionsShown(id)
      ensures isShuffled == old(isShuffled)
    {
      var wasHiding := hideAll;
      hideAll := !hideAll;
      if !wasHiding {
        clicked := {};
      }
    }

    /** `toggleWordDefinition`: in hide mode, flips whether this word's
        definitions are shown and leaves every other word as it was;
        outside hide mode, does nothing. */
    method ToggleWordDefinition(id: string)
      modifies this
      ensures !old(hideAll) ==> clicked == old(clicked)
      ensures old(hideAll) ==> clicked == ToggledId(old(clicked), id)
      ensures old(hideAll) ==> (DefinitionsShown(id) <==> !old(DefinitionsShown(id)))
      ensures forall x :: x != id ==> (DefinitionsShown(x) <==> old(DefinitionsShown(x)))
      ensures hideAll == old(hideAll) && isShuffled == old(isShuffled)
    {
      if !hideAll {
        return;
      }
      clicked := ToggledId(clicked, id);
    }

    /** `shuffleWords`: flips the shuffled flag and keeps the revealed set. */
    method ShuffleWords()
      modifies this
      ensures isShuffled == !old(isShuffled)
      ensures hideAll == old(hideAll) && clicked == old(clicked)
    {
      isShuffled := !isShuffled;
    }

    /** `displayVocabularies`: the filtered words as they are, or a shuffled
        copy of them. */
    method DisplayVocabularies(filtered: seq<Vocabulary>, tape: seq<nat>) returns (display: seq<Vocabulary>)
      ensures !isShuffled ==> display == filtered
      ensures isShuffled ==> display == Shuffle.Shuffled(filtered, tape)
      ensures multiset(display) == multiset(filtered)
    {
      if !isShuffled {
        return filtered;
      }
      display := Shuffle.ShuffleArray(filtered, tape);
      Shuffle.ShuffledPermutes(filtered, tape);
    }
  }
}
