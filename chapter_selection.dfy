/** The chapter check-list shared by the memorize view, the word list and the
    quiz setup page: the selection is a list of chapter ids. */
module ChapterSelection {
  import opened Common

  /** `handleChapterToggle`: checking appends the id, even when it is already
      selected; unchecking removes every occurrence and keeps the rest in
      order. */
  function Toggle(selected: seq<string>, id: string, checked: bool): seq<string>
  {
    if checked then selected + [id] else Filter(selected, (x: string) => x != id)
  }

  /** `selectAllChapters`: every chapter id, in chapter order. */
  function SelectAll(chapters: seq<Chapter>): (r: seq<string>)
    ensures |r| == |chapters|
    ensures forall i :: 0 <= i < |r| ==> r[i] == chapters[i].id
  {
    seq(|chapters|, i requires 0 <= i < |chapters| => chapters[i].id)
  }

  /** `clearAllChapters`. */
  function ClearAll(): (r: seq<string>)
    ensures |r| == 0
  {
    []
  }

  /** Checking adds exactly one occurrence of the id, after the existing selection. */
  lemma CheckAddsOne(selected: seq<string>, id: string)
    ensures var r := Toggle(selected, id, true);
            && r[..|selected|] == selected && r[|selected|] == id
            && multiset(r) == multiset(selected) + multiset{id}
  {
    assert Toggle(selected, id, true)[..|selected|] == selected;
  }

  /** Unchecking removes every occurrence of the id and keeps the number of
      occurrences of every other id. */
  lemma UncheckRemovesAll(selected: seq<string>, id: string, other: string)
    requires other != id
    ensures id !in Toggle(selected, id, false)
    ensures multiset(Toggle(selected, id, false))[other] == multiset(selected)[other]
  {
    FilterCount(selected, (x: string) => x != id, other);
  }

  /** Unchecking keeps relative order: it works piecewise on a split list. */
  lemma UncheckKeepsOrder(front: seq<string>, back: seq<string>, id: string)
    ensures Toggle(front + back, id, false) == Toggle(front, id, false) + Toggle(back, id, false)
  {
    FilterAppend(front, back, (x: string) => x != id);
  }

  /** Unchecking an id that is not selected changes nothing. */
  lemma UncheckAbsent(selected: seq<string>, id: string)
    requires id !in selected
    ensures Toggle(selected, id, false) == selected
  {
    FilterAllPass(selected, (x: string) => x != id);
  }

  /** Checking and then unchecking a chapter that was not selected restores
      the selection. */
  lemma CheckThenUncheck(selected: seq<string>, id: string)
    requires id !in selected
    ensures Toggle(Toggle(selected, id, true), id, false) == selected
  {
    var p := (x: string) => x != id;
    FilterAppend(selected, [id], p);
    FilterAllPass(selected, p);
    assert [id][1..] == [];
    assert Filter([id], p) == [] + Filter([id][1..], p);
  }

  /** Unchecking twice is unchecking once. */
  lemma UncheckIdempotent(selected: seq<string>, id: string)
    ensures Toggle(Toggle(selected, id, false), id, false) == Toggle(selected, id, false)
  {
    UncheckAbsent(Toggle(selected, id, false), id);
  }

  /** After selecting all, exactly the chapters' ids are selected. */
  lemma SelectAllExactly(chapters: seq<Chapter>, id: string)
    ensures id in SelectAll(chapters) <==> exists c :: c in chapters && c.id == id
  {
    if exists c :: c in chapters && c.id == id {
      var c :| c in chapters && c.id == id;
      var i :| 0 <= i < |chapters| && chapters[i] == c;
      assert SelectAll(chapters)[i] == id;
    }
  }
}
