/** The order of a book's chapters (`getVocabularyChapters`): the query
    returns them by name, and they are then sorted, stably, by the number
    formed by all the digits of the name ("1-2" counts as 12). */
module ChapterOrder {
  import opened Common

  predicate IsDigit(c: char)
  {
    '0' <= c <= '9'
  }

  /** `name.replace(/\D/g, "")`: the digits of the name, in order. */
  function Digits(name: string): (ds: string)
    ensures |ds| <= |name|
    ensures forall i :: 0 <= i < |ds| ==> IsDigit(ds[i])
  {
    if name == [] then []
    else (if IsDigit(name[0]) then [name[0]] else []) + Digits(name[1..])
  }

  /** Removing the non-digits keeps every digit, in order: `Digits` is the
      digit filter of the name. */
  lemma {:induction false} DigitsAreFilter(name: string)
    ensures Digits(name) == Filter(name, IsDigit)
  {
    if name != [] {
      DigitsAreFilter(name[1..]);
    }
  }

  /** The digits of a concatenation are the digits of each part, in turn. */
  lemma {:induction false} DigitsAppend(a: string, b: string)
    ensures Digits(a + b) == Digits(a) + Digits(b)
  {
    if a == [] {
      assert a + b == b;
    } else {
      assert (a + b)[0] == a[0] && (a + b)[1..] == a[1..] + b;
      DigitsAppend(a[1..], b);
    }
  }

  /** A digit is kept, anything else is removed. */
  lemma DigitsOfOne(c: char)
    ensures Digits([c]) == if IsDigit(c) then [c] else []
  {
    assert [c][1..] == [];
  }

  /** The decimal value of a string of digits. */
  function DecimalValue(ds: string): nat
    requires forall i :: 0 <= i < |ds| ==> IsDigit(ds[i])
  {
    if ds == [] then 0
    else
      var last := ds[|ds| - 1];
      assert IsDigit(last);
      DecimalValue(ds[..|ds| - 1]) * 10 + (last as int - '0' as int)
  }

  /** `parseInt(digits, 10)`: absent (NaN) for a name without digits. */
  function ChapterNumber(name: string): (r: Option<nat>)
    ensures r.None? <==> Digits(name) == []
  {
    var ds := Digits(name);
    if ds == [] then None else Some(DecimalValue(ds))
  }

  predicate Numbered(c: Chapter)
  {
    ChapterNumber(c.name).Some?
  }

  predicate AllNumbered(s: seq<Chapter>)
  {
    forall c :: c in s ==> Numbered(c)
  }

  /** The sort key of a numbered chapter. */
  function NumberOf(c: Chapter): nat
  {
    match ChapterNumber(c.name)
    case Some(n) => n
    case None => 0
  }

  predicate Sorted(s: seq<Chapter>, key: Chapter -> nat)
  {
    forall i, j :: 0 <= i < j < |s| ==> key(s[i]) <= key(s[j])
  }

  /** Puts `x` before the first chapter whose key is not smaller. */
  function Insert(x: Chapter, t: seq<Chapter>, key: Chapter -> nat): (r: seq<Chapter>)
    ensures |r| == |t| + 1
    ensures multiset(r) == multiset(t) + multiset{x}
  {
    if t == [] || key(x) <= key(t[0]) then [x] + t
    else
      assert t == [t[0]] + t[1..];
      [t[0]] + Insert(x, t[1..], key)
  }

  lemma {:induction false} InsertSorted(x: Chapter, t: seq<Chapter>, key: Chapter -> nat)
    requires Sorted(t, key)
    ensures Sorted(Insert(x, t, key), key)
  {
    var r := Insert(x, t, key);
    if t == [] || key(x) <= key(t[0]) {
      assert forall j :: 0 < j < |r| ==> r[j] == t[j - 1];
    } else {
      var r' := Insert(x, t[1..], key);
      InsertSorted(x, t[1..], key);
      assert r == [t[0]] + r';
      forall j | 0 <= j < |r'|
        ensures key(t[0]) <= key(r'[j])
      {
        assert r'[j] in multiset(r');
        if r'[j] != x {
          assert r'[j] in multiset(t[1..]);
          var m :| 0 <= m < |t[1..]| && t[1..][m] == r'[j];
          assert t[m + 1] == r'[j];
        }
      }
    }
  }

  /** A stable sort by `key`, as `Array.prototype.sort` performs with the
      comparator `key(a) - key(b)`. */
  function SortBy(s: seq<Chapter>, key: Chapter -> nat): (r: seq<Chapter>)
    ensures Sorted(r, key)
    ensures multiset(r) == multiset(s) && |r| == |s|
  {
    if s == [] then []
    else
      assert s == [s[0]] + s[1..];
      var t := SortBy(s[1..], key);
      InsertSorted(s[0], t, key);
      Insert(s[0], t, key)
  }

  /** `data?.sort(...) || []`: nothing for a missing query result, else the
      chapters sorted by the number in their names. A name without digits
      gives `NaN`, for which the comparator has no meaning, so every name
      must carry a digit. */
  function OrderedChapters(data: Option<seq<Chapter>>): (r: seq<Chapter>)
    requires data.Some? ==> AllNumbered(data.value)
    ensures data.None? ==> r == []
    ensures data.Some? ==> multiset(r) == multiset(data.value)
    ensures data.Some? ==> forall i, j :: 0 <= i < j < |r| ==> NumberOf(r[i]) <= NumberOf(r[j])
  {
    match data
    case None => []
    case Some(d) => SortBy(d, NumberOf)
  }

  /** The chapters whose key is `k`, in their order. */
  function WithKey(s: seq<Chapter>, key: Chapter -> nat, k: nat): seq<Chapter>
  {
    if s == [] then [] else (if key(s[0]) == k then [s[0]] else []) + WithKey(s[1..], key, k)
  }

  lemma {:induction false} InsertKeepsTies(x: Chapter, t: seq<Chapter>, key: Chapter -> nat, k: nat)
    ensures WithKey(Insert(x, t, key), key, k) == (if key(x) == k then [x] else []) + WithKey(t, key, k)
  {
    var r := Insert(x, t, key);
    if t == [] || key(x) <= key(t[0]) {
      assert r == [x] + t;
      assert r[0] == x && r[1..] == t;
    } else {
      var r' := Insert(x, t[1..], key);
      assert r == [t[0]] + r';
      assert r[0] == t[0] && r[1..] == r';
      InsertKeepsTies(x, t[1..], key, k);
      if key(x) == k {
        assert key(t[0]) != k;
      }
    }
  }

  /** Ties keep the input order: the chapters sharing a key appear in the
      result in the order they came in. */
  lemma {:induction false} SortKeepsTies(s: seq<Chapter>, key: Chapter -> nat, k: nat)
    ensures WithKey(SortBy(s, key), key, k) == WithKey(s, key, k)
  {
    if s != [] {
      SortUnfolds(s, key);
      SortKeepsTies(s[1..], key, k);
      InsertKeepsTies(s[0], SortBy(s[1..], key), key, k);
    }
  }

  lemma SortUnfolds(s: seq<Chapter>, key: Chapter -> nat)
    requires s != []
    ensures SortBy(s, key) == Insert(s[0], SortBy(s[1..], key), key)
  {
  }

  /** Chapters sharing a number stay in the order the query returned them
      in, which is by name. */
  lemma TiesKeepQueryOrder(data: seq<Chapter>, k: nat)
    requires AllNumbered(data)
    ensures WithKey(OrderedChapters(Some(data)), NumberOf, k) == WithKey(data, NumberOf, k)
  {
    SortKeepsTies(data, NumberOf, k);
  }

  /** All the digits count, whatever separates them: "1-2" is chapter 12. */
  lemma DigitsJoinAcrossSeparators()
    ensures ChapterNumber("1-2") == Some(12)
  {
    assert Digits("2") == "2";
    assert Digits("-2") == "2";
    assert Digits("1-2") == "12";
    assert "12"[..1] == "1" && "1"[..0] == "";
  }

  /** Letters and spaces are dropped: "Day 9" is chapter 9, so it comes
      before "1-2" although it sorts after it by name. */
  lemma LettersAreDropped()
    ensures ChapterNumber("Day 9") == Some(9)
  {
    assert Digits("9") == "9";
    assert Digits(" 9") == "9";
    assert Digits("y 9") == "9";
    assert Digits("ay 9") == "9";
    assert "9"[..0] == "";
  }
}
