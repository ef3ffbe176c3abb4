/**
 * The Bible reader's data: verses, chapters, books and bookmarks.
 */
module BibleModel {
  import opened Common
  import opened SeqUtil

  /** One verse; `id` is the fresh `UUID()` the loader gives it. */
  datatype Verse = Verse(
    id: Uuid,
    bookAbbrev: string,
    bookName: string,
    chapter: int,
    verse: int,
    text: string)

  function VerseNumber(v: Verse): int {
    v.verse
  }

  function ChapterNumber(v: Verse): int {
    v.chapter
  }

  function BookAbbrev(v: Verse): string {
    v.bookAbbrev
  }

  /**
   * A chapter, identified by its number. `Chapter` is a Swift value type, so
   * its `mutating` method `append` is modelled as the function `Append` that
   * returns the updated value.
   */
  datatype Chapter = Chapter(index: int, verses: seq<Verse>) {

    /** `append`: adds `v` and re-sorts the verses by verse number. */
    function Append(v: Verse): (r: Chapter)
      ensures r.index == index
      ensures SortedBy(r.verses, VerseNumber)
      ensures multiset(r.verses) == multiset(verses) + multiset{v}
    {
      Chapter(index, SortBy(verses + [v], VerseNumber))
    }
  }

  /** A book: its position among the loaded books, abbreviation, full name and chapters. */
  datatype Book = Book(id: int, abbrev: string, name: string, chapters: seq<Chapter>)

  /** A saved bookmark pointing at a verse by its id. */
  datatype Bookmark = Bookmark(id: Uuid, verseID: Uuid, createdAt: Date)
}
