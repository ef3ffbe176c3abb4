/**
 * `BibleLoader.loadBible`: grouping the loaded verses into books in
 * canonical order, each book into chapters in ascending order, each chapter's
 * verses in ascending verse order.
 */
module BibleLoader {
  import opened Common
  import opened SeqUtil
  import opened BibleCanon
  import opened BibleModel
  import opened BibleParse

  // ---------------------------------------------------------------------
  // Chapters of one book
  // ---------------------------------------------------------------------

  /** The chapter numbers that occur among `vs`, ascending (`chapterGroups.keys.sorted()`). */
  function ChapterIndexes(vs: seq<Verse>): (idx: seq<int>)
    ensures StrictlyIncreasing(idx)
    ensures forall c :: c in idx <==> exists v :: v in vs && v.chapter == c
  {
    var ks := Keys(vs, ChapterNumber);
    assert forall c :: c in ks <==> exists v :: v in vs && v.chapter == c by {
      forall c | c in ks
        ensures exists v :: v in vs && v.chapter == c
      {
        var i :| 0 <= i < |ks| && ks[i] == c;
        assert vs[i] in vs;
      }
      forall c | exists v :: v in vs && v.chapter == c
        ensures c in ks
      {
        var v :| v in vs && v.chapter == c;
        var i :| 0 <= i < |vs| && vs[i] == v;
        assert ks[i] == c;
      }
    }
    SortedSet(ks)
  }

  /** The chapter numbered `c`: the verses with that number, sorted by verse number. */
  function ChapterAt(vs: seq<Verse>, c: int): Chapter {
    Chapter(c, SortBy(Select(vs, ChapterNumber, c), VerseNumber))
  }

  function ChaptersFor(vs: seq<Verse>, idx: seq<int>): (cs: seq<Chapter>)
    ensures |cs| == |idx|
    ensures forall i :: 0 <= i < |idx| ==> cs[i] == ChapterAt(vs, idx[i])
  {
    seq(|idx|, i requires 0 <= i < |idx| => ChapterAt(vs, idx[i]))
  }

  /** `chapterGroups.keys.sorted().map { ... }` for the verses `vs` of one book. */
  function ChaptersOf(vs: seq<Verse>): seq<Chapter> {
    ChaptersFor(vs, ChapterIndexes(vs))
  }

  /** All verses of `cs`, chapter after chapter. */
  function ChapterVerses(cs: seq<Chapter>): seq<Verse> {
    if cs == [] then [] else cs[0].verses + ChapterVerses(cs[1..])
  }

  /** Chapters come in strictly ascending order of number. */
  lemma ChaptersAscending(vs: seq<Verse>)
    ensures forall i, j :: 0 <= i < j < |ChaptersOf(vs)| ==> ChaptersOf(vs)[i].index < ChaptersOf(vs)[j].index
  {
    var cs, idx := ChaptersOf(vs), ChapterIndexes(vs);
    assert forall i :: 0 <= i < |cs| ==> cs[i].index == idx[i];
  }

  /** There is a chapter for a number exactly when some verse of the book has that chapter number. */
  lemma ChaptersPresent(vs: seq<Verse>, c: int)
    ensures (exists i :: 0 <= i < |ChaptersOf(vs)| && ChaptersOf(vs)[i].index == c)
      <==> exists v :: v in vs && v.chapter == c
  {
    var cs, idx := ChaptersOf(vs), ChapterIndexes(vs);
    if c in idx {
      var i :| 0 <= i < |idx| && idx[i] == c;
      assert cs[i].index == c;
    }
  }

  /** Each chapter holds exactly the verses with its number, as often as they occur, in ascending verse order. */
  lemma ChaptersContents(vs: seq<Verse>)
    ensures forall ch :: ch in ChaptersOf(vs) ==>
      SortedBy(ch.verses, VerseNumber) && multiset(ch.verses) == multiset(Select(vs, ChapterNumber, ch.index))
  {
    var cs, idx := ChaptersOf(vs), ChapterIndexes(vs);
    forall ch | ch in cs
      ensures SortedBy(ch.verses, VerseNumber) && multiset(ch.verses) == multiset(Select(vs, ChapterNumber, ch.index))
    {
      var i :| 0 <= i < |cs| && cs[i] == ch;
      assert ch == ChapterAt(vs, idx[i]);
    }
  }

  /** A chapter is never empty. */
  lemma ChaptersNonEmpty(vs: seq<Verse>)
    ensures forall ch :: ch in ChaptersOf(vs) ==> ch.verses != []
  {
    var cs, idx := ChaptersOf(vs), ChapterIndexes(vs);
    forall ch | ch in cs
      ensures ch.verses != []
    {
      var i :| 0 <= i < |cs| && cs[i] == ch;
      var c := idx[i];
      assert ch == ChapterAt(vs, c);
      assert c in idx;
      var v :| v in vs && v.chapter == c;
      SelectCount(vs, ChapterNumber, c, v);
      assert multiset(ch.verses) == multiset(Select(vs, ChapterNumber, c));
      assert v in multiset(ch.verses);
    }
  }

  lemma {:induction false} ChapterVersesCount(vs: seq<Verse>, idx: seq<int>)
    ensures multiset(ChapterVerses(ChaptersFor(vs, idx))) == multiset(Grouped(vs, ChapterNumber, idx))
  {
    if idx != [] {
      var cs := ChaptersFor(vs, idx);
      assert cs[1..] == ChaptersFor(vs, idx[1..]);
      ChapterVersesCount(vs, idx[1..]);
    }
  }

  /** Splitting a book into chapters loses no verse and duplicates none. */
  lemma ChaptersKeepVerses(vs: seq<Verse>)
    ensures multiset(ChapterVerses(ChaptersOf(vs))) == multiset(vs)
  {
    var idx := ChapterIndexes(vs);
    ChapterVersesCount(vs, idx);
    StrictlyIncreasingIsDistinct(idx);
    GroupedIsPermutation(vs, ChapterNumber, idx);
  }

  // ---------------------------------------------------------------------
  // Books
  // ---------------------------------------------------------------------

  /** `Dictionary(grouping: verses) { $0.bookAbbrev }`. */
  function GroupByBook(verses: seq<Verse>): (grouped: map<string, seq<Verse>>)
    ensures forall a :: a in grouped <==> exists v :: v in verses && v.bookAbbrev == a
    ensures forall a :: a in grouped ==> grouped[a] == Select(verses, BookAbbrev, a)
  {
    map a | a in (set v | v in verses :: v.bookAbbrev) :: Select(verses, BookAbbrev, a)
  }

  /** A group exists exactly for the abbreviations that have at least one verse. */
  lemma GroupByBookNonEmpty(verses: seq<Verse>, a: string)
    ensures a in GroupByBook(verses) <==> Select(verses, BookAbbrev, a) != []
  {
    if a in GroupByBook(verses) {
      var v :| v in verses && v.bookAbbrev == a;
      SelectCount(verses, BookAbbrev, a, v);
      assert v in multiset(Select(verses, BookAbbrev, a));
    }
    if Select(verses, BookAbbrev, a) != [] {
      assert Select(verses, BookAbbrev, a)[0] in verses;
    }
  }

  /**
   * The books `loadBible` builds after visiting the abbreviations `order`,
   * looking full names up in `names` (`bookNames`).
   */
  function BooksOf(verses: seq<Verse>, order: seq<string>, names: map<string, string>): seq<Book> {
    if order == [] then []
    else
      var books := BooksOf(verses, order[..|order| - 1], names);
      var abbrev := order[|order| - 1];
      var grouped := GroupByBook(verses);
      if abbrev !in names || abbrev !in grouped then books
      else books + [Book(|books|, abbrev, names[abbrev], ChaptersOf(grouped[abbrev]))]
  }

  /** The books `loadBible` returns when the decoded file is `raw`. */
  function Bible(raw: seq<RawEntry>): seq<Book> {
    BooksOf(LoadVerses(raw), BookOrder, BookNames)
  }

  /** `loadBible`: the verses come from `loadVerses`, the decoded file being `raw`. */
  method LoadBible(raw: seq<RawEntry>) returns (books: seq<Book>)
    ensures books == Bible(raw)
  {
    var verses := LoadVerses(raw);
    books := CollectBooks(verses, BookOrder, BookNames);
  }

  /** The `for abbrev in bookOrder` loop of `loadBible`, over `order` with the name table `names`. */
  method CollectBooks(verses: seq<Verse>, order: seq<string>, names: map<string, string>) returns (books: seq<Book>)
    ensures books == BooksOf(verses, order, names)
  {
    var grouped := GroupByBook(verses);
    books := [];
    var bookIndex := 0;
    for i := 0 to |order|
      invariant books == BooksOf(verses, order[..i], names)
      invariant bookIndex == |books|
    {
      assert order[..i + 1][..i] == order[..i];
      var abbrev := order[i];
      if abbrev in names && abbrev in grouped {
        var name := names[abbrev];
        var chapters := ChaptersOf(grouped[abbrev]);
        books := books + [Book(bookIndex, abbrev, name, chapters)];
        bookIndex := bookIndex + 1;
      }
    }
    assert order[..|order|] == order;
  }

  /**
   * Book ids run 0, 1, 2, ...; each book's abbreviation is listed in `order`
   * and `names`; each book carries its full name and the chapters of its own
   * verses, of which it has at least one.
   */
  ghost predicate WellFormedBooks(verses: seq<Verse>, order: seq<string>, names: map<string, string>, books: seq<Book>) {
    forall i :: 0 <= i < |books| ==>
      && books[i].id == i
      && books[i].abbrev in order
      && books[i].abbrev in names
      && books[i].name == names[books[i].abbrev]
      && Select(verses, BookAbbrev, books[i].abbrev) != []
      && books[i].chapters == ChaptersOf(Select(verses, BookAbbrev, books[i].abbrev))
  }

  lemma {:induction false} BooksOfFields(verses: seq<Verse>, order: seq<string>, names: map<string, string>)
    ensures WellFormedBooks(verses, order, names, BooksOf(verses, order, names))
  {
    if order != [] {
      var init, last := order[..|order| - 1], order[|order| - 1];
      BooksOfFields(verses, init, names);
      GroupByBookNonEmpty(verses, last);
      var books, prev := BooksOf(verses, order, names), BooksOf(verses, init, names);
      forall i | 0 <= i < |books|
        ensures books[i].id == i && books[i].abbrev in order && books[i].abbrev in names
        ensures books[i].name == names[books[i].abbrev]
        ensures Select(verses, BookAbbrev, books[i].abbrev) != []
        ensures books[i].chapters == ChaptersOf(Select(verses, BookAbbrev, books[i].abbrev))
      {
        if i < |prev| {
          assert books[i] == prev[i];
          assert prev[i].abbrev in init;
        } else {
          assert books[i].abbrev == last;
        }
      }
    }
  }

  /** An earlier book's abbreviation sits earlier in `order`. */
  ghost predicate FollowsOrder(order: seq<string>, books: seq<Book>) {
    forall i, j :: 0 <= i < j < |books| ==>
      exists p, q :: 0 <= p < q < |order| && order[p] == books[i].abbrev && order[q] == books[j].abbrev
  }

  /** One step of `BooksOf`: the last abbreviation adds at most one book, after the others. */
  lemma BooksOfStep(verses: seq<Verse>, order: seq<string>, names: map<string, string>)
    requires order != []
    ensures var prev := BooksOf(verses, order[..|order| - 1], names);
      var books := BooksOf(verses, order, names);
      && |prev| <= |books| <= |prev| + 1
      && books[..|prev|] == prev
      && (|books| == |prev| + 1 ==> books[|prev|].abbrev == order[|order| - 1])
  {
  }

  lemma BooksOfListed(verses: seq<Verse>, order: seq<string>, names: map<string, string>)
    ensures var books := BooksOf(verses, order, names);
      forall i :: 0 <= i < |books| ==> books[i].abbrev in order
  {
    BooksOfFields(verses, order, names);
  }

  /** Books appear in the order of `order`. */
  lemma {:induction false} BooksOfOrdered(verses: seq<Verse>, order: seq<string>, names: map<string, string>)
    ensures FollowsOrder(order, BooksOf(verses, order, names))
  {
    if order != [] {
      var init, last := order[..|order| - 1], order[|order| - 1];
      BooksOfOrdered(verses, init, names);
      BooksOfListed(verses, init, names);
      BooksOfStep(verses, order, names);
      var books, prev := BooksOf(verses, order, names), BooksOf(verses, init, names);
      forall i, j | 0 <= i < j < |books|
        ensures exists p, q :: 0 <= p < q < |order| && order[p] == books[i].abbrev && order[q] == books[j].abbrev
      {
        assert books[i] == prev[i];
        if j < |prev| {
          assert books[j] == prev[j];
          var p, q :| 0 <= p < q < |init| && init[p] == prev[i].abbrev && init[q] == prev[j].abbrev;
          assert order[p] == books[i].abbrev && order[q] == books[j].abbrev;
        } else {
          assert prev[i].abbrev in init;
          var p :| 0 <= p < |init| && init[p] == prev[i].abbrev;
          assert order[p] == books[i].abbrev && order[|order| - 1] == books[j].abbrev;
        }
      }
    }
  }

  /** A book is loaded for an abbreviation exactly when `order` and `names` list it and some verse has it. */
  lemma {:induction false} BooksOfPresence(verses: seq<Verse>, order: seq<string>, names: map<string, string>, a: string)
    ensures (exists i :: 0 <= i < |BooksOf(verses, order, names)| && BooksOf(verses, order, names)[i].abbrev == a)
      <==> a in order && a in names && exists v :: v in verses && v.bookAbbrev == a
  {
    if order != [] {
      var init, last := order[..|order| - 1], order[|order| - 1];
      BooksOfPresence(verses, init, names, a);
      assert order == init + [last];
      assert a in order <==> a in init || a == last;
      var books, prev := BooksOf(verses, order, names), BooksOf(verses, init, names);
      assert forall i :: 0 <= i < |prev| ==> books[i] == prev[i];
      if a == last && a in names && exists v :: v in verses && v.bookAbbrev == a {
        assert a in GroupByBook(verses);
        assert books[|books| - 1].abbrev == a;
      }
      if exists i :: 0 <= i < |books| && books[i].abbrev == a {
        var i :| 0 <= i < |books| && books[i].abbrev == a;
        if i >= |prev| {
          assert a == last && a in names && a in GroupByBook(verses);
        }
      }
    }
  }

  /** All verses of `books`, book after book. */
  function AllVerses(books: seq<Book>): seq<Verse> {
    if books == [] then [] else AllVerses(books[..|books| - 1]) + ChapterVerses(books[|books| - 1].chapters)
  }

  lemma {:induction false} GroupedSnoc<T, K>(s: seq<T>, key: T -> K, ks: seq<K>, k: K)
    ensures Grouped(s, key, ks + [k]) == Grouped(s, key, ks) + Select(s, key, k)
  {
    if ks != [] {
      assert (ks + [k])[1..] == ks[1..] + [k];
      GroupedSnoc(s, key, ks[1..], k);
    } else {
      assert Grouped(s, key, [k][1..]) == [];
    }
  }

  lemma {:induction false} AllVersesGrouped(verses: seq<Verse>, order: seq<string>, names: map<string, string>)
    requires forall v :: v in verses ==> v.bookAbbrev in names
    ensures multiset(AllVerses(BooksOf(verses, order, names))) == multiset(Grouped(verses, BookAbbrev, order))
  {
    if order != [] {
      var init, abbrev := order[..|order| - 1], order[|order| - 1];
      assert order == init + [abbrev];
      AllVersesGrouped(verses, init, names);
      GroupedSnoc(verses, BookAbbrev, init, abbrev);
      GroupByBookNonEmpty(verses, abbrev);
      var books := BooksOf(verses, order, names);
      if abbrev in names && abbrev in GroupByBook(verses) {
        assert books[..|books| - 1] == BooksOf(verses, init, names);
        ChaptersKeepVerses(Select(verses, BookAbbrev, abbrev));
      } else if abbrev !in names {
        SelectNone(verses, BookAbbrev, abbrev);
      }
    }
  }

  // ---------------------------------------------------------------------
  // The loaded Bible
  // ---------------------------------------------------------------------

  /** Books that follow `bookOrder` come in ascending canonical position. */
  lemma CanonicalPositions(books: seq<Book>)
    requires FollowsOrder(BookOrder, books)
    ensures forall i, j :: 0 <= i < j < |books| ==> CanonicalIndex(books[i].abbrev) < CanonicalIndex(books[j].abbrev)
  {
    forall i, j | 0 <= i < j < |books|
      ensures CanonicalIndex(books[i].abbrev) < CanonicalIndex(books[j].abbrev)
    {
      var p, q :| 0 <= p < q < |BookOrder| && BookOrder[p] == books[i].abbrev && BookOrder[q] == books[j].abbrev;
      BookOrderPosition(p);
      BookOrderPosition(q);
    }
  }

  /** The loaded books follow the canonical order of `bookOrder`. */
  lemma LoadBibleCanonicalOrder(raw: seq<RawEntry>)
    ensures forall i, j :: 0 <= i < j < |Bible(raw)| ==>
      CanonicalIndex(Bible(raw)[i].abbrev) < CanonicalIndex(Bible(raw)[j].abbrev)
  {
    BooksOfOrdered(LoadVerses(raw), BookOrder, BookNames);
    CanonicalPositions(Bible(raw));
  }

  lemma BooksOfPresenceListed(verses: seq<Verse>, order: seq<string>, names: map<string, string>, a: string)
    requires a in order && a in names
    ensures (exists i :: 0 <= i < |BooksOf(verses, order, names)| && BooksOf(verses, order, names)[i].abbrev == a)
      <==> exists v :: v in verses && v.bookAbbrev == a
  {
    BooksOfPresence(verses, order, names, a);
  }

  /** A book of the canon is loaded exactly when some loaded verse belongs to it. */
  lemma LoadBibleSkipsEmpty(raw: seq<RawEntry>, a: string)
    requires a in BookOrder
    ensures var books := BooksOf(LoadVerses(raw), BookOrder, BookNames);
      (exists i :: 0 <= i < |books| && books[i].abbrev == a)
      <==> exists v :: v in LoadVerses(raw) && v.bookAbbrev == a
  {
    assert a in BookNames;
    BooksOfPresenceListed(LoadVerses(raw), BookOrder, BookNames, a);
  }

  /**
   * Because `bookOrder` lists each key of `bookNames` exactly once, every
   * loaded verse lands in exactly one chapter of exactly one book.
   */
  lemma LoadBibleKeepsVerses(raw: seq<RawEntry>)
    ensures multiset(AllVerses(Bible(raw))) == multiset(LoadVerses(raw))
  {
    var verses := LoadVerses(raw);
    BookNamesMatchOrder();
    AllVersesGrouped(verses, BookOrder, BookNames);
    BookOrderIsDistinct();
    GroupedIsPermutation(verses, BookAbbrev, BookOrder);
  }
}
