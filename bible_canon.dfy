/**
 * The 66 books of the Protestant canon as `BibleLoader` lists them: the
 * abbreviations in canonical order (`bookOrder`) and the full Korean name of
 * each (`bookNames`).
 */
module BibleCanon {
  import opened SeqUtil

  // `bookOrder`, written as six rows of eleven so that the verifier can
  // enumerate each row on its own.

  const OrderRow0: seq<string> := ["창", "출", "레", "민", "신", "수", "삿", "룻", "삼상", "삼하", "왕상"]
  const OrderRow1: seq<string> := ["왕하", "대상", "대하", "스", "느", "에", "욥", "시", "잠", "전", "아"]
  const OrderRow2: seq<string> := ["사", "렘", "애", "겔", "단", "호", "욜", "암", "옵", "욘", "미"]
  const OrderRow3: seq<string> := ["나", "합", "습", "학", "슥", "말", "마", "막", "눅", "요", "행"]
  const OrderRow4: seq<string> := ["롬", "고전", "고후", "갈", "엡", "빌", "골", "살전", "살후", "딤전", "딤후"]
  const OrderRow5: seq<string> := ["딛", "몬", "히", "약", "벧전", "벧후", "요일", "요이", "요삼", "유", "계"]

  /** `bookOrder`: the 39 books of the Old Testament, then the 27 of the New. */
  const BookOrder: seq<string> :=
    OrderRow0 + OrderRow1 + OrderRow2 + OrderRow3 + OrderRow4 + OrderRow5

  // The values of `bookNames`, in the order of `BookOrder`.

  const NameRow0: seq<string> := ["창세기", "출애굽기", "레위기", "민수기", "신명기", "여호수아", "사사기", "룻기", "사무엘상", "사무엘하", "열왕기상"]
  const NameRow1: seq<string> := ["열왕기하", "역대상", "역대하", "에스라", "느헤미야", "에스더", "욥기", "시편", "잠언", "전도서", "아가"]
  const NameRow2: seq<string> := ["이사야", "예레미야", "예레미야애가", "에스겔", "다니엘", "호세아", "요엘", "아모스", "오바댜", "요나", "미가"]
  const NameRow3: seq<string> := ["나훔", "하박국", "스바냐", "학개", "스가랴", "말라기", "마태복음", "마가복음", "누가복음", "요한복음", "사도행전"]
  const NameRow4: seq<string> := ["로마서", "고린도전서", "고린도후서", "갈라디아서", "에베소서", "빌립보서", "골로새서", "데살로니가전서", "데살로니가후서", "디모데전서", "디모데후서"]
  const NameRow5: seq<string> := ["디도서", "빌레몬서", "히브리서", "야고보서", "베드로전서", "베드로후서", "요한일서", "요한이서", "요한삼서", "유다서", "요한계시록"]

  const FullNames: seq<string> :=
    NameRow0 + NameRow1 + NameRow2 + NameRow3 + NameRow4 + NameRow5

  /** A number determined by the first two characters of `s` (every abbreviation has at most two). */
  function Code(s: string): int {
    if |s| == 0 then 0 else (s[0] as int) * 0x1_0000 + (if |s| >= 2 then s[1] as int else 0)
  }

  /**
   * The position of abbreviation `s` in `BookOrder`, or -1. Because it is a
   * function of `s`, two positions it gives back different results for hold
   * different abbreviations: this is what shows `BookOrder` has no repeats.
   */
  function CanonicalIndex(s: string): int {
    var c := Code(s);
    if c == 0xCC3D0000 then 0 else // 창
    if c == 0xCD9C0000 then 1 else // 출
    if c == 0xB8080000 then 2 else // 레
    if c == 0xBBFC0000 then 3 else // 민
    if c == 0xC2E00000 then 4 else // 신
    if c == 0xC2180000 then 5 else // 수
    if c == 0xC0BF0000 then 6 else // 삿
    if c == 0xB8FB0000 then 7 else // 룻
    if c == 0xC0BCC0C1 then 8 else // 삼상
    if c == 0xC0BCD558 then 9 else // 삼하
    if c == 0xC655C0C1 then 10 else // 왕상
    if c == 0xC655D558 then 11 else // 왕하
    if c == 0xB300C0C1 then 12 else // 대상
    if c == 0xB300D558 then 13 else // 대하
    if c == 0xC2A40000 then 14 else // 스
    if c == 0xB2900000 then 15 else // 느
    if c == 0xC5D00000 then 16 else // 에
    if c == 0xC6A50000 then 17 else // 욥
    if c == 0xC2DC0000 then 18 else // 시
    if c == 0xC7A00000 then 19 else // 잠
    if c == 0xC8040000 then 20 else // 전
    if c == 0xC5440000 then 21 else // 아
    if c == 0xC0AC0000 then 22 else // 사
    if c == 0xB8180000 then 23 else // 렘
    if c == 0xC5600000 then 24 else // 애
    if c == 0xAC940000 then 25 else // 겔
    if c == 0xB2E80000 then 26 else // 단
    if c == 0xD6380000 then 27 else // 호
    if c == 0xC69C0000 then 28 else // 욜
    if c == 0xC5540000 then 29 else // 암
    if c == 0xC6350000 then 30 else // 옵
    if c == 0xC6980000 then 31 else // 욘
    if c == 0xBBF80000 then 32 else // 미
    if c == 0xB0980000 then 33 else // 나
    if c == 0xD5690000 then 34 else // 합
    if c == 0xC2B50000 then 35 else // 습
    if c == 0xD5590000 then 36 else // 학
    if c == 0xC2A50000 then 37 else // 슥
    if c == 0xB9D00000 then 38 else // 말
    if c == 0xB9C80000 then 39 else // 마
    if c == 0xB9C90000 then 40 else // 막
    if c == 0xB2050000 then 41 else // 눅
    if c == 0xC6940000 then 42 else // 요
    if c == 0xD5890000 then 43 else // 행
    if c == 0xB86C0000 then 44 else // 롬
    if c == 0xACE0C804 then 45 else // 고전
    if c == 0xACE0D6C4 then 46 else // 고후
    if c == 0xAC080000 then 47 else // 갈
    if c == 0xC5E10000 then 48 else // 엡
    if c == 0xBE4C0000 then 49 else // 빌
    if c == 0xACE80000 then 50 else // 골
    if c == 0xC0B4C804 then 51 else // 살전
    if c == 0xC0B4D6C4 then 52 else // 살후
    if c == 0xB524C804 then 53 else // 딤전
    if c == 0xB524D6C4 then 54 else // 딤후
    if c == 0xB51B0000 then 55 else // 딛
    if c == 0xBAAC0000 then 56 else // 몬
    if c == 0xD7880000 then 57 else // 히
    if c == 0xC57D0000 then 58 else // 약
    if c == 0xBCA7C804 then 59 else // 벧전
    if c == 0xBCA7D6C4 then 60 else // 벧후
    if c == 0xC694C77C then 61 else // 요일
    if c == 0xC694C774 then 62 else // 요이
    if c == 0xC694C0BC then 63 else // 요삼
    if c == 0xC7200000 then 64 else // 유
    if c == 0xACC40000 then 65 else // 계
    -1
  }

  /** `bookNames[abbrev]`, for an abbreviation that `bookNames` has. */
  function FullName(abbrev: string): string {
    var i := CanonicalIndex(abbrev);
    if 0 <= i < |FullNames| then FullNames[i] else ""
  }

  /** `bookNames`: one entry per abbreviation of `BookOrder`. */
  const BookNames: map<string, string> := map a | a in BookOrder :: FullName(a)

  lemma Row0Positions()
    ensures forall i :: 0 <= i < |OrderRow0| ==> CanonicalIndex(OrderRow0[i]) == 0 + i
  {
  }

  lemma Row1Positions()
    ensures forall i :: 0 <= i < |OrderRow1| ==> CanonicalIndex(OrderRow1[i]) == 11 + i
  {
  }

  lemma Row2Positions()
    ensures forall i :: 0 <= i < |OrderRow2| ==> CanonicalIndex(OrderRow2[i]) == 22 + i
  {
  }

  lemma Row3Positions()
    ensures forall i :: 0 <= i < |OrderRow3| ==> CanonicalIndex(OrderRow3[i]) == 33 + i
  {
  }

  lemma Row4Positions()
    ensures forall i :: 0 <= i < |OrderRow4| ==> CanonicalIndex(OrderRow4[i]) == 44 + i
  {
  }

  lemma Row5Positions()
    ensures forall i :: 0 <= i < |OrderRow5| ==> CanonicalIndex(OrderRow5[i]) == 55 + i
  {
  }

  /** Each abbreviation sits at the position `CanonicalIndex` names. */
  lemma BookOrderPositions()
    ensures |BookOrder| == 66 && |FullNames| == 66
    ensures forall i :: 0 <= i < |BookOrder| ==> CanonicalIndex(BookOrder[i]) == i
  {
    Row0Positions();
    Row1Positions();
    Row2Positions();
    Row3Positions();
    Row4Positions();
    Row5Positions();
    forall i | 0 <= i < |BookOrder|
      ensures CanonicalIndex(BookOrder[i]) == i
    {
      if i < 11 {
        assert BookOrder[i] == OrderRow0[i];
      } else if i < 22 {
        assert BookOrder[i] == OrderRow1[i - 11];
      } else if i < 33 {
        assert BookOrder[i] == OrderRow2[i - 22];
      } else if i < 44 {
        assert BookOrder[i] == OrderRow3[i - 33];
      } else if i < 55 {
        assert BookOrder[i] == OrderRow4[i - 44];
      } else {
        assert BookOrder[i] == OrderRow5[i - 55];
      }
    }
  }

  /** One or two Hangul syllables. */
  ghost predicate HangulAbbreviation(s: string) {
    0 < |s| <= 2 && forall i :: 0 <= i < |s| ==> 0xAC00 <= s[i] as int <= 0xD7A3
  }

  lemma Row0Hangul()
    ensures forall i :: 0 <= i < |OrderRow0| ==> HangulAbbreviation(OrderRow0[i])
  {
  }

  lemma Row1Hangul()
    ensures forall i :: 0 <= i < |OrderRow1| ==> HangulAbbreviation(OrderRow1[i])
  {
  }

  lemma Row2Hangul()
    ensures forall i :: 0 <= i < |OrderRow2| ==> HangulAbbreviation(OrderRow2[i])
  {
  }

  lemma Row3Hangul()
    ensures forall i :: 0 <= i < |OrderRow3| ==> HangulAbbreviation(OrderRow3[i])
  {
  }

  lemma Row4Hangul()
    ensures forall i :: 0 <= i < |OrderRow4| ==> HangulAbbreviation(OrderRow4[i])
  {
  }

  lemma Row5Hangul()
    ensures forall i :: 0 <= i < |OrderRow5| ==> HangulAbbreviation(OrderRow5[i])
  {
  }

  /** Every abbreviation is one or two Hangul syllables. */
  lemma BookOrderHangul()
    ensures forall a :: a in BookOrder ==> HangulAbbreviation(a)
  {
    Row0Hangul();
    Row1Hangul();
    Row2Hangul();
    Row3Hangul();
    Row4Hangul();
    Row5Hangul();
    forall a | a in BookOrder
      ensures HangulAbbreviation(a)
    {
      var i :| 0 <= i < |BookOrder| && BookOrder[i] == a;
      if i < 11 {
        assert a == OrderRow0[i];
      } else if i < 22 {
        assert a == OrderRow1[i - 11];
      } else if i < 33 {
        assert a == OrderRow2[i - 22];
      } else if i < 44 {
        assert a == OrderRow3[i - 33];
      } else if i < 55 {
        assert a == OrderRow4[i - 44];
      } else {
        assert a == OrderRow5[i - 55];
      }
    }
  }

  lemma BookOrderPosition(i: int)
    requires 0 <= i < |BookOrder|
    ensures CanonicalIndex(BookOrder[i]) == i
  {
    BookOrderPositions();
  }

  /** No book is listed twice, so loading visits each book once. */
  lemma BookOrderIsDistinct()
    ensures Distinct(BookOrder)
  {
    BookOrderPositions();
  }

  /**
   * `bookNames` has exactly the keys of `bookOrder`, and gives the i-th
   * abbreviation the i-th full name.
   */
  lemma BookNamesMatchOrder()
    ensures forall a :: a in BookNames <==> a in BookOrder
    ensures forall i :: 0 <= i < |BookOrder| ==> BookNames[BookOrder[i]] == FullNames[i]
  {
    BookNamesKeys();
    BookNamesValues();
  }

  lemma BookNamesValues()
    ensures forall i :: 0 <= i < |BookOrder| ==> BookOrder[i] in BookNames && BookNames[BookOrder[i]] == FullNames[i]
  {
    forall i | 0 <= i < |BookOrder|
      ensures BookOrder[i] in BookNames && BookNames[BookOrder[i]] == FullNames[i]
    {
      BookNameAt(i);
    }
  }

  lemma BookNamesKeys()
    ensures forall a :: a in BookNames <==> a in BookOrder
  {
    forall a
      ensures a in BookNames <==> a in BookOrder
    {
    }
  }

  lemma BookNameAt(i: int)
    requires 0 <= i < |BookOrder|
    ensures BookOrder[i] in BookNames && BookNames[BookOrder[i]] == FullNames[i]
  {
    BookOrderPositions();
    var a := BookOrder[i];
    assert a in BookOrder;
    assert FullName(a) == FullNames[i];
  }

  /** The split of the canon into the two testaments. */
  lemma Testaments()
    ensures BookOrder[0] == "창" && BookOrder[38] == "말"
    ensures BookOrder[39] == "마" && BookOrder[65] == "계"
  {
  }
}
