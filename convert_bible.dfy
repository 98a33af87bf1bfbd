/**
 * The corpus flattening script: the nested Bible (books, each with an abbreviation and its
 * chapters, each a list of verse texts) becomes one flat list of records carrying the book's
 * Arabic name, the 1-based chapter and verse numbers, and the verse text. Reading and writing
 * the JSON files is not part of this model.
 */
module ConvertBible {
  import opened Sequences

  datatype BookEntry = BookEntry(abbrev: string, chapters: seq<seq<string>>)

  datatype VerseRecord = VerseRecord(book: string, chapter: nat, verse: nat, text: string)

  /** `book_map`: the Arabic name of each of the 66 books, by abbreviation (lines 8-75). */
  const BookMap: map<string, string> := map[
    "gn" := "التكوين",
    "ex" := "الخروج",
    "lv" := "اللاويين",
    "nm" := "العدد",
    "dt" := "التثنية",
    "js" := "يشوع",
    "jd" := "القضاة",
    "ru" := "راعوث",
    "1sa" := "صموئيل الأول",
    "2sa" := "صموئيل الثاني",
    "1ki" := "الملوك الأول",
    "2ki" := "الملوك الثاني",
    "1ch" := "أخبار الأيام الأول",
    "2ch" := "أخبار الأيام الثاني",
    "ezr" := "عزرا",
    "ne" := "نحميا",
    "et" := "أستير",
    "jb" := "أيوب",
    "ps" := "المزامير",
    "pr" := "الأمثال",
    "ec" := "الجامعة",
    "so" := "نشيد الأنشاد",
    "is" := "إشعياء",
    "je" := "إرميا",
    "la" := "مراثي إرميا",
    "ez" := "حزقيال",
    "da" := "دانيال",
    "ho" := "هوشع",
    "jl" := "يوئيل",
    "am" := "عاموس",
    "ob" := "عوبديا",
    "jo" := "يونان",
    "mic" := "ميخا",
    "na" := "ناحوم",
    "hk" := "حبقوق",
    "zp" := "صفنيا",
    "hg" := "حجي",
    "zc" := "زكريا",
    "ml" := "ملاخي",
    "mt" := "متى",
    "mr" := "مرقس",
    "lk" := "لوقا",
    "jn" := "يوحنا",
    "ac" := "أعمال الرسل",
    "ro" := "رومية",
    "1co" := "كورنثوس الأولى",
    "2co" := "كورنثوس الثانية",
    "ga" := "غلاطية",
    "ep" := "أفسس",
    "php" := "فيلبي",
    "co" := "كولوسي",
    "1th" := "تسالونيكي الأولى",
    "2th" := "تسالونيكي الثانية",
    "1ti" := "تيموثاوس الأولى",
    "2ti" := "تيموثاوس الثانية",
    "tt" := "تيطس",
    "phm" := "فليمون",
    "heb" := "العبرانيين",
    "jas" := "يعقوب",
    "1pe" := "بطرس الأولى",
    "2pe" := "بطرس الثانية",
    "1jn" := "يوحنا الأولى",
    "2jn" := "يوحنا الثانية",
    "3jn" := "يوحنا الثالثة",
    "jud" := "يهوذا",
    "re" := "رؤيا يوحنا"
  ]

  /**
   * `book_map.get(abbrev, abbrev)` (line 79) with `names` as the table: an unknown
   * abbreviation names its book itself.
   */
  function BookName(names: map<string, string>, abbrev: string): (name: string)
    ensures abbrev in names ==> name == names[abbrev]
    ensures abbrev !in names ==> name == abbrev
  {
    if abbrev in names then names[abbrev] else abbrev
  }

  /** The records of the verses of chapter number `c` of book `name`. */
  function ChapterRecords(name: string, c: nat, verses: seq<string>): (r: seq<VerseRecord>)
    ensures |r| == |verses|
    ensures forall v | 0 <= v < |verses| :: r[v] == VerseRecord(name, c, v + 1, verses[v])
  {
    seq(|verses|, v requires 0 <= v < |verses| => VerseRecord(name, c, v + 1, verses[v]))
  }

  /** The records of a book's chapters, numbered from 1. */
  function BookRecords(name: string, chapters: seq<seq<string>>): seq<VerseRecord> {
    if chapters == [] then []
    else BookRecords(name, chapters[..|chapters| - 1]) + ChapterRecords(name, |chapters|, chapters[|chapters| - 1])
  }

  /** The records of all books, in book order. */
  function Flattened(data: seq<BookEntry>, names: map<string, string>): seq<VerseRecord> {
    if data == [] then []
    else
      var b := data[|data| - 1];
      Flattened(data[..|data| - 1], names) + BookRecords(BookName(names, b.abbrev), b.chapters)
  }

  /** The nested loops (lines 77-87). */
  method Convert(data: seq<BookEntry>) returns (output: seq<VerseRecord>)
    ensures output == Flattened(data, BookMap)
  {
    output := [];
    for i := 0 to |data|
      invariant output == Flattened(data[..i], BookMap)
    {
      var name := BookName(BookMap, data[i].abbrev);
      var chapters := data[i].chapters;
      ghost var before := output;
      assert chapters[..0] == [] && before + [] == before;
      for c := 0 to |chapters|
        invariant output == before + BookRecords(name, chapters[..c])
      {
        var chapter := chapters[c];
        ghost var done := output;
        assert chapter[..0] == [] && done + [] == done;
        for v := 0 to |chapter|
          invariant output == done + ChapterRecords(name, c + 1, chapter[..v])
        {
          ChapterRecordsSnoc(name, c + 1, chapter, v);
          AppendAssoc(done, ChapterRecords(name, c + 1, chapter[..v]), [VerseRecord(name, c + 1, v + 1, chapter[v])]);
          output := output + [VerseRecord(name, c + 1, v + 1, chapter[v])];
        }
        assert chapter[..|chapter|] == chapter;
        BookRecordsSnoc(name, chapters, c);
        AppendAssoc(before, BookRecords(name, chapters[..c]), ChapterRecords(name, c + 1, chapter));
      }
      assert chapters[..|chapters|] == chapters;
      FlattenedSnoc(data, BookMap, i);
    }
    assert data[..|data|] == data;
  }

  lemma ChapterRecordsSnoc(name: string, c: nat, chapter: seq<string>, v: nat)
    requires v < |chapter|
    ensures ChapterRecords(name, c, chapter[..v + 1]) == ChapterRecords(name, c, chapter[..v]) + [VerseRecord(name, c, v + 1, chapter[v])]
  {
  }

  /** The records of the first c + 1 chapters are those of the first c, then chapter c + 1's. */
  lemma BookRecordsSnoc(name: string, chapters: seq<seq<string>>, c: nat)
    requires c < |chapters|
    ensures BookRecords(name, chapters[..c + 1]) == BookRecords(name, chapters[..c]) + ChapterRecords(name, c + 1, chapters[c])
  {
    assert chapters[..c + 1][..c] == chapters[..c];
  }

  /** The records of the first i + 1 books are those of the first i, then book i + 1's. */
  lemma FlattenedSnoc(data: seq<BookEntry>, names: map<string, string>, i: nat)
    requires i < |data|
    ensures Flattened(data[..i + 1], names) == Flattened(data[..i], names) + BookRecords(BookName(names, data[i].abbrev), data[i].chapters)
  {
    assert data[..i + 1][..i] == data[..i];
  }

  /** The number of verses in a book's chapters. */
  function ChapterTotal(chapters: seq<seq<string>>): nat {
    if chapters == [] then 0 else ChapterTotal(chapters[..|chapters| - 1]) + |chapters[|chapters| - 1]|
  }

  /** The number of verse strings across all books and chapters. */
  function Total(data: seq<BookEntry>): nat {
    if data == [] then 0 else Total(data[..|data| - 1]) + ChapterTotal(data[|data| - 1].chapters)
  }

  lemma {:induction false} BookRecordsLength(name: string, chapters: seq<seq<string>>)
    ensures |BookRecords(name, chapters)| == ChapterTotal(chapters)
  {
    if chapters != [] {
      BookRecordsLength(name, chapters[..|chapters| - 1]);
    }
  }

  /** One record per verse string. */
  lemma {:induction false} FlattenedLength(data: seq<BookEntry>, names: map<string, string>)
    ensures |Flattened(data, names)| == Total(data)
  {
    if data != [] {
      FlattenedLength(data[..|data| - 1], names);
      BookRecordsLength(BookName(names, data[|data| - 1].abbrev), data[|data| - 1].chapters);
    }
  }

  /** Where verse `v` of chapter `c` of book `b` lands (all 0-based). */
  function Offset(data: seq<BookEntry>, b: nat, c: nat, v: nat): nat
    requires b < |data| && c < |data[b].chapters|
  {
    Total(data[..b]) + ChapterTotal(data[b].chapters[..c]) + v
  }

  lemma {:induction false} ChapterRecordAt(name: string, chapters: seq<seq<string>>, c: nat, v: nat)
    requires c < |chapters| && v < |chapters[c]|
    ensures ChapterTotal(chapters[..c]) + v < |BookRecords(name, chapters)|
    ensures BookRecords(name, chapters)[ChapterTotal(chapters[..c]) + v] == VerseRecord(name, c + 1, v + 1, chapters[c][v])
  {
    var init := chapters[..|chapters| - 1];
    BookRecordsLength(name, init);
    if c < |chapters| - 1 {
      assert init[..c] == chapters[..c];
      ChapterRecordAt(name, init, c, v);
    } else {
      assert init == chapters[..c];
    }
  }

  /**
   * The record of verse `v` of chapter `c` of book `b` carries the book's name, the 1-based
   * chapter and verse numbers, and exactly the verse's text.
   */
  lemma {:induction false} RecordAt(data: seq<BookEntry>, names: map<string, string>, b: nat, c: nat, v: nat)
    requires b < |data| && c < |data[b].chapters| && v < |data[b].chapters[c]|
    ensures Offset(data, b, c, v) < |Flattened(data, names)|
    ensures Flattened(data, names)[Offset(data, b, c, v)]
         == VerseRecord(BookName(names, data[b].abbrev), c + 1, v + 1, data[b].chapters[c][v])
  {
    var init, last := data[..|data| - 1], data[|data| - 1];
    var front, book := Flattened(init, names), BookRecords(BookName(names, last.abbrev), last.chapters);
    assert Flattened(data, names) == front + book;
    FlattenedLength(init, names);
    var at := Offset(data, b, c, v);
    if b < |data| - 1 {
      assert init[..b] == data[..b] && init[b] == data[b];
      assert at == Offset(init, b, c, v);
      RecordAt(init, names, b, c, v);
      assert (front + book)[at] == front[at];
    } else {
      assert init == data[..b];
      ChapterRecordAt(BookName(names, last.abbrev), last.chapters, c, v);
      assert (front + book)[at] == book[at - |front|];
    }
  }

  lemma {:induction false} ChapterTotalPrefix(chapters: seq<seq<string>>, c: nat, d: nat)
    requires c <= d <= |chapters|
    ensures ChapterTotal(chapters[..c]) <= ChapterTotal(chapters[..d])
    ensures c < d ==> ChapterTotal(chapters[..c]) + |chapters[c]| <= ChapterTotal(chapters[..d])
    decreases d
  {
    if c < d {
      ChapterTotalPrefix(chapters, c, d - 1);
      assert chapters[..d][..d - 1] == chapters[..d - 1];
    }
  }

  lemma {:induction false} TotalPrefix(data: seq<BookEntry>, b: nat, e: nat)
    requires b <= e <= |data|
    ensures Total(data[..b]) <= Total(data[..e])
    ensures b < e ==> Total(data[..b]) + ChapterTotal(data[b].chapters) <= Total(data[..e])
    decreases e
  {
    if b < e {
      TotalPrefix(data, b, e - 1);
      assert data[..e][..e - 1] == data[..e - 1];
    }
  }

  /** Book order, then chapter, then verse: an earlier position in the source lands earlier. */
  lemma Ordered(data: seq<BookEntry>, b: nat, c: nat, v: nat, b2: nat, c2: nat, v2: nat)
    requires b < |data| && c < |data[b].chapters| && v < |data[b].chapters[c]|
    requires b2 < |data| && c2 < |data[b2].chapters| && v2 < |data[b2].chapters[c2]|
    requires b < b2 || (b == b2 && c < c2) || (b == b2 && c == c2 && v < v2)
    ensures Offset(data, b, c, v) < Offset(data, b2, c2, v2)
  {
    ChapterTotalPrefix(data[b].chapters, c, |data[b].chapters|);
    assert data[b].chapters[..|data[b].chapters|] == data[b].chapters;
    if b < b2 {
      TotalPrefix(data, b, b2);
    } else if c < c2 {
      ChapterTotalPrefix(data[b].chapters, c, c2);
    }
  }
}
