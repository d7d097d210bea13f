/** The caption above the word list and on the quiz setup page
    (`getFilterDescription`, identical on both pages). */
module FilterDescription {
  import opened Common

  const ChapterLabel: string := "선택된 챕터: "
  const BookLabel: string := "단어장: "
  const AllWordsLabel: string := "전체 단어"
  const NameSeparator: string := ", "

  function Names(chapters: seq<Chapter>): seq<string>
  {
    seq(|chapters|, i requires 0 <= i < |chapters| => chapters[i].name)
  }

  /** The names of the selected chapters, in the order of the chapter list
      (not the order of selection). */
  function SelectedChapterNames(chapters: seq<Chapter>, selected: seq<string>): seq<string>
  {
    Names(Filter(chapters, (c: Chapter) => c.id in selected))
  }

  function Describe(chapters: seq<Chapter>, selected: seq<string>, book: string): string
  {
    if |selected| > 0 then ChapterLabel + Join(SelectedChapterNames(chapters, selected), NameSeparator)
    else if book != "" then BookLabel + book
    else AllWordsLabel
  }

  /** The caption names the chapters when any is selected, else the book
      when one is chosen, else all words; the three captions are told apart
      by their beginnings. */
  lemma DescribeByPriority(chapters: seq<Chapter>, selected: seq<string>, book: string)
    ensures var d := Describe(chapters, selected, book);
            && (|selected| > 0 <==> IsPrefix(ChapterLabel, d))
            && (|selected| == 0 && book != "" <==> IsPrefix(BookLabel, d))
            && (|selected| == 0 && book == "" <==> d == AllWordsLabel)
  {
    var d := Describe(chapters, selected, book);
    if IsPrefix(ChapterLabel, d) { PrefixFirst(ChapterLabel, d); }
    if IsPrefix(BookLabel, d) { PrefixFirst(BookLabel, d); }
    if |selected| > 0 {
      assert d[..|ChapterLabel|] == ChapterLabel;
      assert d[0] == ChapterLabel[0];
    } else if book != "" {
      assert d[..|BookLabel|] == BookLabel;
      assert d[0] == BookLabel[0];
    }
  }

  lemma PrefixFirst(p: string, s: string)
    requires IsPrefix(p, s) && |p| > 0
    ensures s[0] == p[0]
  {
    assert s[..|p|][0] == s[0];
  }

  /** A name appears exactly when some chapter with a selected id carries it. */
  lemma SelectedNamesExactly(chapters: seq<Chapter>, selected: seq<string>, n: string)
    ensures n in SelectedChapterNames(chapters, selected) <==>
            exists c :: c in chapters && c.id in selected && c.name == n
  {
    var kept := Filter(chapters, (c: Chapter) => c.id in selected);
    if n in Names(kept) {
      var i :| 0 <= i < |kept| && kept[i].name == n;
      assert kept[i] in kept;
    }
    if exists c :: c in chapters && c.id in selected && c.name == n {
      var c :| c in chapters && c.id in selected && c.name == n;
      assert c in kept;
      var i :| 0 <= i < |kept| && kept[i] == c;
      assert Names(kept)[i] == n;
    }
  }

  /** The names follow the chapter list piecewise, so their order is the
      chapter list's order. */
  lemma SelectedNamesInChapterOrder(front: seq<Chapter>, back: seq<Chapter>, selected: seq<string>)
    ensures SelectedChapterNames(front + back, selected)
         == SelectedChapterNames(front, selected) + SelectedChapterNames(back, selected)
  {
    var p := (c: Chapter) => c.id in selected;
    FilterAppend(front, back, p);
    NamesAppend(Filter(front, p), Filter(back, p));
  }

  lemma NamesAppend(a: seq<Chapter>, b: seq<Chapter>)
    ensures Names(a + b) == Names(a) + Names(b)
  {
    assert forall i :: 0 <= i < |a + b| ==> Names(a + b)[i] == (Names(a) + Names(b))[i];
  }
}
