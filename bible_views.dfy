/**
 * The logic inside the Bible screens: the verse count of a book's info
 * sheet, the bookmark screen's filter, and the swipe card's offset state.
 */
module BibleViews {
  import opened Common
  import opened SeqUtil
  import opened BibleModel
  import opened BibleParse
  import opened BibleLoader

  // ---------------------------------------------------------------------
  // `BibleBookInfoSheet.calculateVerseCount`
  // ---------------------------------------------------------------------

  /** The number of verses over all of `cs`. */
  function TotalVerses(cs: seq<Chapter>): nat {
    if cs == [] then 0 else |cs[0].verses| + TotalVerses(cs[1..])
  }

  /** `calculateVerseCount`: adds up the verse count of each chapter of the book. */
  method CalculateVerseCount(book: Book) returns (result: int)
    ensures result == TotalVerses(book.chapters)
  {
    var cs := book.chapters;
    result := 0;
    for i := 0 to |cs|
      invariant result + TotalVerses(cs[i..]) == TotalVerses(cs)
    {
      assert cs[i..][1..] == cs[i + 1..];
      result := result + |cs[i].verses|;
    }
  }

  /** The total is the number of verses the chapters hold together. */
  lemma {:induction false} TotalVersesCounts(cs: seq<Chapter>)
    ensures TotalVerses(cs) == |ChapterVerses(cs)|
  {
    if cs != [] {
      TotalVersesCounts(cs[1..]);
    }
  }

  /** For a loaded book, the count is the number of loaded verses of that book. */
  lemma LoadedVerseCount(verses: seq<Verse>, order: seq<string>, names: map<string, string>, i: int)
    requires 0 <= i < |BooksOf(verses, order, names)|
    ensures var book := BooksOf(verses, order, names)[i];
      TotalVerses(book.chapters) == |Select(verses, BookAbbrev, book.abbrev)|
  {
    var book := BooksOf(verses, order, names)[i];
    BooksOfFields(verses, order, names);
    var group := Select(verses, BookAbbrev, book.abbrev);
    ChaptersKeepVerses(group);
    TotalVersesCounts(book.chapters);
    assert |multiset(ChapterVerses(book.chapters))| == |multiset(group)|;
  }

  // ---------------------------------------------------------------------
  // The bookmark screen
  // ---------------------------------------------------------------------

  /** `Set(bookmarks.map { $0.verseID })`. */
  function BookmarkedIds(bookmarks: seq<Bookmark>): (ids: set<Uuid>)
    ensures forall id :: id in ids <==> exists b :: b in bookmarks && b.verseID == id
  {
    set b | b in bookmarks :: b.verseID
  }

  /** `verses.filter { bookmarkedVerseIDs.contains($0.id) }`. */
  function BookmarkedVerses(verses: seq<Verse>, ids: set<Uuid>): seq<Verse> {
    if verses == [] then []
    else
      BookmarkedVerses(verses[..|verses| - 1], ids)
      + (if verses[|verses| - 1].id in ids then [verses[|verses| - 1]] else [])
  }

  /** The filter keeps each bookmarked verse as often as it occurs, and nothing else. */
  lemma {:induction false} BookmarkedVersesCount(verses: seq<Verse>, ids: set<Uuid>, v: Verse)
    ensures multiset(BookmarkedVerses(verses, ids))[v] == if v.id in ids then multiset(verses)[v] else 0
  {
    if verses != [] {
      assert verses == verses[..|verses| - 1] + [verses[|verses| - 1]];
      BookmarkedVersesCount(verses[..|verses| - 1], ids, v);
    }
  }

  /** The filter keeps the verses' order: filtering a concatenation filters each part. */
  lemma {:induction false} BookmarkedVersesAppend(a: seq<Verse>, b: seq<Verse>, ids: set<Uuid>)
    ensures BookmarkedVerses(a + b, ids) == BookmarkedVerses(a, ids) + BookmarkedVerses(b, ids)
  {
    if b == [] {
      assert a + b == a;
    } else {
      var init := b[..|b| - 1];
      assert (a + b)[..|a + b| - 1] == a + init;
      BookmarkedVersesAppend(a, init, ids);
    }
  }

  /** A verse shows on the bookmark screen exactly when it is loaded and some bookmark points at it. */
  lemma BookmarkScreenShows(verses: seq<Verse>, bookmarks: seq<Bookmark>, v: Verse)
    ensures v in BookmarkedVerses(verses, BookmarkedIds(bookmarks))
      <==> v in verses && exists b :: b in bookmarks && b.verseID == v.id
  {
    BookmarkedVersesCount(verses, BookmarkedIds(bookmarks), v);
  }

  /** `BibleBookmarkView`'s loading flag and the verses it shows. */
  class BookmarkScreen {
    var isLoading: bool
    var bookmarkedVerses: seq<Verse>

    constructor()
      ensures !isLoading && bookmarkedVerses == []
    {
      isLoading := false;
      bookmarkedVerses := [];
    }

    /** The `.task`: loads the verses of `raw` and keeps the bookmarked ones. */
    method Load(raw: seq<RawEntry>, bookmarks: seq<Bookmark>)
      modifies this
      ensures !isLoading
      ensures bookmarkedVerses == BookmarkedVerses(LoadVerses(raw), BookmarkedIds(bookmarks))
    {
      isLoading := true;
      var verses := LoadVerses(raw);
      var ids := BookmarkedIds(bookmarks);
      bookmarkedVerses := BookmarkedVerses(verses, ids);
      isLoading := false;
    }
  }

  // ---------------------------------------------------------------------
  // `BibleSwipeableVerseCard`
  // ---------------------------------------------------------------------

  /** `fullSwipeValue`: how far, in points, the card slides to reveal the button. */
  const FullSwipe: real := 80.0

  function Abs(x: real): (r: real)
    ensures r >= 0.0 && (r == x || r == -x)
  {
    if x < 0.0 then -x else x
  }

  /** The offset a drag by `horizontal` points sets: leftward drags follow the finger up to the full swipe. */
  function DragOffset(horizontal: real): (r: real)
    ensures -FullSwipe <= r <= 0.0
    ensures -FullSwipe <= horizontal <= 0.0 ==> r == horizontal
    ensures horizontal < -FullSwipe ==> r == -FullSwipe
    ensures horizontal > 0.0 ==> r == 0.0
  {
    if horizontal <= 0.0 then (if horizontal > -FullSwipe then horizontal else -FullSwipe) else 0.0
  }

  /** Whether a drag ending at `width` leaves the card open. */
  predicate SnapsOpen(width: real) {
    Abs(width) >= FullSwipe && width < 0.0
  }

  /** The card stays open exactly when the drag went at least the full swipe to the left. */
  lemma SnapsOpenIff(width: real)
    ensures SnapsOpen(width) <==> width <= -FullSwipe
  {
  }

  /** A drag ends open exactly when, at its last position, it had reached the full swipe. */
  lemma EndAgreesWithDrag(width: real)
    ensures SnapsOpen(width) <==> Abs(DragOffset(width)) >= FullSwipe
  {
  }

  /** The button's opacity, `max(0, -offset / fullSwipeValue)`. */
  function ButtonOpacity(offset: real): (r: real)
    ensures r >= 0.0
    ensures -FullSwipe <= offset <= 0.0 ==> r <= 1.0 && (r == 1.0 <==> offset == -FullSwipe)
  {
    var ratio := -offset / FullSwipe;
    if ratio > 0.0 then ratio else 0.0
  }

  /** The swipe card's state: how far the card is slid and whether it is fully open. */
  class SwipeableVerseCard {
    const verse: Verse
    var offset: real
    var isSwipe: bool

    /** The card is slid between 0 and the full swipe, and is open exactly at the full swipe. */
    ghost predicate Valid()
      reads this
    {
      -FullSwipe <= offset <= 0.0 && (isSwipe <==> offset == -FullSwipe)
    }

    constructor(verse: Verse)
      ensures this.verse == verse && offset == 0.0 && !isSwipe && Valid()
    {
      this.verse := verse;
      offset := 0.0;
      isSwipe := false;
    }

    /** `onChanged`: the card follows a drag of `horizontal` points. */
    method DragChanged(horizontal: real)
      modifies this
      ensures offset == DragOffset(horizontal)
      ensures isSwipe == (Abs(offset) >= FullSwipe)
      ensures Valid()
    {
      if horizontal <= 0.0 {
        offset := if horizontal > -FullSwipe then horizontal else -FullSwipe;
      } else {
        offset := 0.0;
      }
      isSwipe := Abs(offset) >= FullSwipe;
    }

    /** `onEnded`: the card snaps open or closed. */
    method DragEnded(width: real)
      modifies this
      ensures SnapsOpen(width) ==> offset == -FullSwipe && isSwipe
      ensures !SnapsOpen(width) ==> offset == 0.0 && !isSwipe
      ensures Valid()
    {
      if Abs(width) >= FullSwipe && width < 0.0 {
        offset := -FullSwipe;
        isSwipe := true;
      } else {
        offset := 0.0;
        isSwipe := false;
      }
    }

    /** `onTapGesture`, and the action button after its action: the card closes. */
    method Close()
      modifies this
      ensures offset == 0.0 && !isSwipe && Valid()
    {
      offset := 0.0;
      isSwipe := false;
    }
  }
}
