/**
 * `BibleLoader.loadVerses`: turning the decoded `[String: String]` of
 * `"<abbrev><chapter>:<verse>"` keys and verse texts into verses, dropping
 * every key that does not have that form.
 */
module BibleParse {
  import opened Common
  import opened Decimal
  import opened SeqUtil
  import opened BibleCanon
  import opened BibleModel

  // ---------------------------------------------------------------------
  // `split(separator:)` with its default of omitting empty pieces
  // ---------------------------------------------------------------------

  /** The length of the longest prefix of `s` free of `sep`. */
  function RunLength(s: string, sep: char): (n: nat)
    ensures n <= |s|
    ensures forall i :: 0 <= i < n ==> s[i] != sep
    ensures n < |s| ==> s[n] == sep
  {
    if s == [] || s[0] == sep then 0 else 1 + RunLength(s[1..], sep)
  }

  /** `s.split(separator: sep)`: the maximal non-empty runs of `s` free of `sep`. */
  function Split(s: string, sep: char): seq<string> {
    if s == [] then []
    else if s[0] == sep then Split(s[1..], sep)
    else
      var n := RunLength(s, sep);
      [s[..n]] + Split(s[n..], sep)
  }

  /** Every piece is non-empty and free of the separator. */
  lemma {:induction false} SplitPieces(s: string, sep: char)
    ensures forall p :: p in Split(s, sep) ==> |p| > 0 && sep !in p
    decreases |s|
  {
    if s != [] {
      if s[0] == sep {
        SplitPieces(s[1..], sep);
      } else {
        SplitPieces(s[RunLength(s, sep)..], sep);
      }
    }
  }

  /** `s` with every `sep` removed. */
  function Without(s: string, sep: char): (r: string)
    ensures sep !in r
  {
    if s == [] then [] else (if s[0] == sep then [] else [s[0]]) + Without(s[1..], sep)
  }

  function Concat(parts: seq<string>): string {
    if parts == [] then [] else parts[0] + Concat(parts[1..])
  }

  lemma {:induction false} WithoutAppend(a: string, b: string, sep: char)
    ensures Without(a + b, sep) == Without(a, sep) + Without(b, sep)
  {
    if a != [] {
      assert (a + b)[1..] == a[1..] + b;
      WithoutAppend(a[1..], b, sep);
    } else {
      assert a + b == b;
    }
  }

  lemma {:induction false} WithoutNone(s: string, sep: char)
    requires sep !in s
    ensures Without(s, sep) == s
  {
    if s != [] {
      WithoutNone(s[1..], sep);
    }
  }

  /** Splitting loses only the separators: the pieces, joined, are `s` without them. */
  lemma {:induction false} SplitKeepsText(s: string, sep: char)
    ensures Concat(Split(s, sep)) == Without(s, sep)
    decreases |s|
  {
    if s != [] {
      if s[0] == sep {
        SplitKeepsText(s[1..], sep);
      } else {
        var n := RunLength(s, sep);
        SplitKeepsText(s[n..], sep);
        assert s == s[..n] + s[n..];
        WithoutAppend(s[..n], s[n..], sep);
        WithoutNone(s[..n], sep);
      }
    }
  }

  /** A separator between two texts splits them independently, however many separators surround it. */
  lemma {:induction false} SplitAppend(a: string, b: string, sep: char)
    ensures Split(a + [sep] + b, sep) == Split(a, sep) + Split(b, sep)
    decreases |a|
  {
    var s := a + [sep] + b;
    if a == [] {
      assert s == [sep] + b;
      assert s[1..] == b;
      assert Split(s, sep) == Split(b, sep);
    } else if a[0] == sep {
      assert s[1..] == a[1..] + [sep] + b;
      SplitAppend(a[1..], b, sep);
      assert Split(s, sep) == Split(s[1..], sep);
      assert Split(a, sep) == Split(a[1..], sep);
    } else {
      var n := RunLength(a, sep);
      RunLengthPrefix(s, n, sep);
      assert s[..n] == a[..n];
      assert Split(s, sep) == [a[..n]] + Split(s[n..], sep);
      assert Split(a, sep) == [a[..n]] + Split(a[n..], sep);
      assert s[n..] == a[n..] + [sep] + b;
      SplitAppend(a[n..], b, sep);
    }
  }

  /** `RunLength` is the first position holding `sep`, or the length when there is none. */
  lemma {:induction false} RunLengthPrefix(s: string, n: nat, sep: char)
    requires n <= |s| && (n < |s| ==> s[n] == sep)
    requires forall i :: 0 <= i < n ==> s[i] != sep
    ensures RunLength(s, sep) == n
  {
    if n > 0 {
      RunLengthPrefix(s[1..], n - 1, sep);
    }
  }

  /** A non-empty text without separators is one piece. */
  lemma SplitSingle(s: string, sep: char)
    requires s != [] && sep !in s
    ensures Split(s, sep) == [s]
  {
    RunLengthPrefix(s, |s|, sep);
    assert s[..|s|] == s;
    assert Split(s, sep) == [s] + Split(s[|s|..], sep);
    assert s[|s|..] == [];
  }

  /** `s` consists of separators only. */
  ghost predicate AllSeparators(s: string, sep: char) {
    forall i :: 0 <= i < |s| ==> s[i] == sep
  }

  /** Leading separators yield no piece. */
  lemma {:induction false} SplitLeading(seps: string, s: string, sep: char)
    requires AllSeparators(seps, sep)
    ensures Split(seps + s, sep) == Split(s, sep)
  {
    if seps != [] {
      assert (seps + s)[1..] == seps[1..] + s;
      SplitLeading(seps[1..], s, sep);
    } else {
      assert seps + s == s;
    }
  }

  /** Trailing separators yield no piece. */
  lemma SplitTrailing(s: string, seps: string, sep: char)
    requires AllSeparators(seps, sep)
    ensures Split(s + seps, sep) == Split(s, sep)
  {
    if seps == [] {
      assert s + seps == s;
    } else {
      assert s + seps == s + [sep] + seps[1..];
      SplitAppend(s, seps[1..], sep);
      SplitLeading(seps[1..], [], sep);
      assert seps[1..] + [] == seps[1..];
    }
  }

  // ---------------------------------------------------------------------
  // Partitioning the front part into abbreviation and chapter
  // ---------------------------------------------------------------------

  /**
   * `Character.isNumber`: the ASCII digits and the other characters with a
   * numeric value that the model recognises (see README).
   */
  predicate IsNumber(c: char) {
    ('0' <= c <= '9')
    || c == '\U{00B2}' || c == '\U{00B3}' || c == '\U{00B9}'
    || ('\U{00BC}' <= c <= '\U{00BE}')
    || ('\U{0660}' <= c <= '\U{0669}')
    || ('\U{2160}' <= c <= '\U{2188}')
    || ('\U{2460}' <= c <= '\U{249B}')
    || ('\U{FF10}' <= c <= '\U{FF19}')
  }

  /** The numeric characters of `s`, in order: the chapter string. */
  function Numerals(s: string): (r: string)
    ensures forall i :: 0 <= i < |r| ==> IsNumber(r[i])
  {
    if s == [] then []
    else Numerals(s[..|s| - 1]) + (if IsNumber(s[|s| - 1]) then [s[|s| - 1]] else [])
  }

  /** The other characters of `s`, in order: the abbreviation. */
  function Letters(s: string): (r: string)
    ensures forall i :: 0 <= i < |r| ==> !IsNumber(r[i])
  {
    if s == [] then []
    else Letters(s[..|s| - 1]) + (if IsNumber(s[|s| - 1]) then [] else [s[|s| - 1]])
  }

  /** The partition keeps every character of `s` exactly once. */
  lemma {:induction false} PartitionIsPermutation(s: string)
    ensures multiset(Letters(s)) + multiset(Numerals(s)) == multiset(s)
  {
    if s != [] {
      PartitionIsPermutation(s[..|s| - 1]);
      assert s == s[..|s| - 1] + [s[|s| - 1]];
    }
  }

  /** The partition of a concatenation is the concatenation of the partitions, so order is kept. */
  lemma {:induction false} PartitionAppend(a: string, b: string)
    ensures Letters(a + b) == Letters(a) + Letters(b)
    ensures Numerals(a + b) == Numerals(a) + Numerals(b)
    decreases |b|
  {
    if b == [] {
      assert a + b == a;
    } else {
      var b' := b[..|b| - 1];
      assert (a + b)[..|a + b| - 1] == a + b';
      PartitionAppend(a, b');
    }
  }

  lemma {:induction false} PartitionOfDigits(s: string)
    requires AllDigits(s)
    ensures Numerals(s) == s && Letters(s) == []
  {
    if s != [] {
      PartitionOfDigits(s[..|s| - 1]);
    }
  }

  lemma {:induction false} PartitionOfText(s: string)
    requires forall i :: 0 <= i < |s| ==> !IsNumber(s[i])
    ensures Letters(s) == s && Numerals(s) == []
  {
    if s != [] {
      PartitionOfText(s[..|s| - 1]);
    }
  }

  /** The `for f in front` loop: numeric characters go to `chapter`, the rest to `abbrev`. */
  method Partition(front: string) returns (abbrev: string, chapter: string)
    ensures abbrev == Letters(front) && chapter == Numerals(front)
  {
    abbrev, chapter := "", "";
    for i := 0 to |front|
      invariant abbrev == Letters(front[..i]) && chapter == Numerals(front[..i])
    {
      assert front[..i + 1][..i] == front[..i];
      var f := front[i];
      if IsNumber(f) {
        chapter := chapter + [f];
      } else {
        abbrev := abbrev + [f];
      }
    }
    assert front[..|front|] == front;
  }

  // ---------------------------------------------------------------------
  // One key
  // ---------------------------------------------------------------------

  /** What a well-formed key names. */
  datatype Reference = Reference(abbrev: string, chapter: int, verse: int)

  /** The decision the `compactMap` closure makes about one key. */
  function ParseKey(key: string): Option<Reference> {
    var parts := Split(key, ':');
    if |parts| != 2 then None
    else
      match ParseInt(parts[1])
      case None => None
      case Some(verse) =>
        var abbrev, chapter := Letters(parts[0]), Numerals(parts[0]);
        if abbrev == [] || chapter == [] then None
        else
          match ParseInt(chapter)
          case None => None
          case Some(c) => if abbrev in BookNames then Some(Reference(abbrev, c, verse)) else None
  }

  /** The verse the closure returns for one entry, if any; `id` is the `UUID()` it would get. */
  function VerseOf(key: string, text: string, id: Uuid): (r: Option<Verse>)
    ensures r.Some? <==> ParseKey(key).Some?
  {
    match ParseKey(key)
    case None => None
    case Some(ref) =>
      Some(Verse(id, ref.abbrev, BookNames[ref.abbrev], ref.chapter, ref.verse, text))
  }

  /** The `compactMap` closure, step by step. */
  method ParseEntry(key: string, text: string, id: Uuid) returns (r: Option<Verse>)
    ensures r == VerseOf(key, text, id)
  {
    var parts := Split(key, ':');
    if |parts| != 2 {
      return None;
    }
    var verseIndex := ParseInt(parts[1]);
    if verseIndex.None? {
      return None;
    }
    var abbrev, chapter := Partition(parts[0]);
    if abbrev == [] || chapter == [] {
      return None;
    }
    var chapterIndex := ParseInt(chapter);
    if chapterIndex.None? || abbrev !in BookNames {
      return None;
    }
    var name := BookNames[abbrev];
    return Some(Verse(id, abbrev, name, chapterIndex.value, verseIndex.value, text));
  }

  /**
   * What an accepted key gives a verse: a book of the canon, a chapter
   * number that is never negative (the numeric run holds no sign), and a
   * verse number in `Int`'s range.
   */
  lemma ParseKeyBounds(key: string, ref: Reference)
    ensures ParseKey(key) == Some(ref) ==>
      && ref.abbrev in BookOrder
      && 0 <= ref.chapter <= IntMax
      && IntMin <= ref.verse <= IntMax
  {
    if ParseKey(key) == Some(ref) {
      var numerals := Numerals(Split(key, ':')[0]);
      assert numerals != [] && !IsNumber('-');
      ParseIntShape(numerals);
      BookNamesKeys();
    }
  }

  /** Every abbreviation is Hangul, so none of its characters is numeric. */
  lemma AbbreviationsAreText()
    ensures forall a, i :: a in BookOrder && 0 <= i < |a| ==> !IsNumber(a[i])
  {
    BookOrderHangul();
  }

  /** A key written by the data file's scheme splits into its front part and its verse number. */
  lemma SplitKey(front: string, verseText: string)
    requires front != [] && ':' !in front
    requires verseText != [] && ':' !in verseText
    ensures Split(front + ":" + verseText, ':') == [front, verseText]
  {
    assert front + ":" + verseText == front + [':'] + verseText;
    SplitAppend(front, verseText, ':');
    SplitSingle(front, ':');
    SplitSingle(verseText, ':');
  }

  lemma NoSeparatorInNumber(n: int)
    ensures ':' !in IntToString(n)
  {
    var t := IntToString(n);
    if n < 0 {
      assert t == "-" + NatToString(-n);
      assert forall i :: 1 <= i < |t| ==> IsDigit(t[i]);
    }
  }

  /** The front part of such a key partitions back into the abbreviation and the chapter digits. */
  lemma PartitionFront(abbrev: string, chapter: nat)
    requires abbrev in BookOrder
    ensures Letters(abbrev + NatToString(chapter)) == abbrev
    ensures Numerals(abbrev + NatToString(chapter)) == NatToString(chapter)
  {
    var digits := NatToString(chapter);
    AbbreviationsAreText();
    PartitionAppend(abbrev, digits);
    PartitionOfText(abbrev);
    PartitionOfDigits(digits);
  }

  /** Text `Int` accepts has no separator in it. */
  lemma ParsedHasNoSeparator(t: string)
    requires ParseInt(t).Some?
    ensures t != [] && ':' !in t
  {
    var digits := if t[0] == '+' || t[0] == '-' then t[1..] else t;
    assert forall i :: 0 <= i < |digits| ==> IsDigit(digits[i]);
    if t[0] == '+' || t[0] == '-' {
      assert forall i :: 1 <= i < |t| ==> t[i] == digits[i - 1];
    }
  }

  /**
   * A key naming a book, a chapter and any text `Int` accepts as the verse is
   * read as that reference, even with extra colons before, between or after
   * the two parts, because `split` drops the empty pieces they make.
   */
  lemma ParseKeyLenient(abbrev: string, chapter: nat, verseText: string, pre: string, mid: string, post: string)
    requires abbrev in BookOrder && chapter <= IntMax
    requires ParseInt(verseText).Some?
    requires AllSeparators(pre, ':') && AllSeparators(post, ':')
    requires mid != [] && AllSeparators(mid, ':')
    ensures ParseKey(pre + abbrev + NatToString(chapter) + mid + verseText + post)
      == Some(Reference(abbrev, chapter, ParseInt(verseText).value))
  {
    var digits := NatToString(chapter);
    var front := abbrev + digits;
    assert abbrev != [] && ':' !in front by {
      BookOrderHangul();
      assert HangulAbbreviation(abbrev);
      assert forall i :: 0 <= i < |digits| ==> IsDigit(digits[i]);
    }
    var key := pre + abbrev + digits + mid + verseText + post;
    assert Split(key, ':') == [front, verseText] by {
      ParsedHasNoSeparator(verseText);
      Regroup(pre, abbrev, digits, mid, verseText, post);
      SplitPadded(front, verseText, pre, mid, post, ':');
    }
    assert Letters(front) == abbrev && Numerals(front) == digits && ParseInt(digits) == Some(chapter as int) by {
      PartitionFront(abbrev, chapter);
      ParseIntToString(chapter);
      assert IntToString(chapter) == digits;
    }
    assert abbrev in BookNames;
    ParseKeyOf(key, front, verseText, Reference(abbrev, chapter, ParseInt(verseText).value));
  }

  lemma Regroup<T>(a: seq<T>, b: seq<T>, c: seq<T>, d: seq<T>, e: seq<T>, f: seq<T>)
    ensures a + b + c + d + e + f == a + (b + c) + d + e + f
  {
  }

  /** Two separator-free texts with separators around and at least one between split into exactly those two. */
  lemma SplitPadded(front: string, back: string, pre: string, mid: string, post: string, sep: char)
    requires front != [] && sep !in front && back != [] && sep !in back
    requires AllSeparators(pre, sep) && AllSeparators(post, sep)
    requires mid != [] && AllSeparators(mid, sep)
    ensures Split(pre + front + mid + back + post, sep) == [front, back]
  {
    var tail := mid[1..] + back + post;
    assert pre + front + mid + back + post == pre + (front + [sep] + tail);
    SplitLeading(pre, front + [sep] + tail, sep);
    SplitAppend(front, tail, sep);
    SplitSingle(front, sep);
    assert tail == mid[1..] + (back + post);
    SplitLeading(mid[1..], back + post, sep);
    SplitTrailing(back, post, sep);
    SplitSingle(back, sep);
  }

  /** The key the data file's scheme writes for a book, chapter and verse reads back as that reference. */
  lemma ParseKeyRoundTrip(abbrev: string, chapter: nat, verse: int)
    requires abbrev in BookOrder
    requires chapter <= IntMax && IntMin <= verse <= IntMax
    ensures ParseKey(abbrev + NatToString(chapter) + ":" + IntToString(verse))
      == Some(Reference(abbrev, chapter, verse))
  {
    var digits, verseText := NatToString(chapter), IntToString(verse);
    var front := abbrev + digits;
    KeyFront(abbrev, chapter);
    NoSeparatorInNumber(verse);
    SplitKey(front, verseText);
    ParseIntToString(verse);
    ParseKeyOf(front + ":" + verseText, front, verseText, Reference(abbrev, chapter, verse));
  }

  /** The book-and-chapter part of a key the data file's scheme writes: no separator, read back as the book and the chapter. */
  lemma KeyFront(abbrev: string, chapter: nat)
    requires abbrev in BookOrder && chapter <= IntMax
    ensures var front := abbrev + NatToString(chapter);
      && abbrev != [] && ':' !in front && abbrev in BookNames
      && Letters(front) == abbrev && Numerals(front) == NatToString(chapter)
      && ParseInt(NatToString(chapter)) == Some(chapter as int)
  {
    var digits := NatToString(chapter);
    assert abbrev != [] && ':' !in abbrev + digits by {
      BookOrderHangul();
      assert HangulAbbreviation(abbrev);
      assert forall i :: 0 <= i < |digits| ==> IsDigit(digits[i]);
    }
    PartitionFront(abbrev, chapter);
    ParseIntToString(chapter);
    assert IntToString(chapter) == digits;
    BookNamesKeys();
  }

  lemma ParseKeyOf(key: string, front: string, verseText: string, ref: Reference)
    requires Split(key, ':') == [front, verseText]
    requires ParseInt(verseText) == Some(ref.verse)
    requires Letters(front) == ref.abbrev && ref.abbrev != [] && ref.abbrev in BookNames
    requires Numerals(front) != [] && ParseInt(Numerals(front)) == Some(ref.chapter)
    ensures ParseKey(key) == Some(ref)
  {
  }

  // ---------------------------------------------------------------------
  // The whole dictionary
  // ---------------------------------------------------------------------

  /** One decoded dictionary entry, and the `UUID()` its verse would be given. */
  datatype RawEntry = RawEntry(key: string, text: string, id: Uuid)

  /** The verse for one entry, if its key is accepted. */
  function Accept(e: RawEntry): (r: Option<Verse>)
    ensures r.Some? ==> WellNamed(r.value) && r.value.id == e.id && r.value.text == e.text
  {
    VerseOf(e.key, e.text, e.id)
  }

  /** `raw.compactMap { ... }`, over the entries in the dictionary's iteration order. */
  function LoadVerses(raw: seq<RawEntry>): (verses: seq<Verse>)
    ensures |verses| <= |raw|
    ensures forall v :: v in verses ==> WellNamed(v)
  {
    CompactMapMembers(raw, Accept);
    CompactMap(raw, Accept)
  }

  /** A loaded verse names a book of the canon and carries that book's full name. */
  ghost predicate WellNamed(v: Verse) {
    v.bookAbbrev in BookNames && v.bookName == BookNames[v.bookAbbrev]
  }

  /** Loading keeps exactly the verses of the accepted entries. */
  lemma LoadVersesKeepsAccepted(raw: seq<RawEntry>)
    ensures forall v :: v in LoadVerses(raw) <==> exists e :: e in raw && Accept(e) == Some(v)
  {
    CompactMapMembers(raw, Accept);
  }
}
