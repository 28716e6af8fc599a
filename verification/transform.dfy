/**
 * Turning a scraped record, keyed by the sites' Vietnamese labels, into a
 * database record with fixed keys: the NetTruyen and Manhuavn crawlers'
 * `transform_comic_data`, and the record the Manhuavn detail crawl builds.
 *
 * A transformation is a table of fields: the database key, the scraped label
 * it is read from, the default for a missing label, and how the value is
 * converted. Python raises when it calls `isdigit` on something that is not
 * text; such a record has no transformation (`None`).
 */
module Transform {
  import opened Base
  import opened Text
  import opened PyNum
  import opened NumberParsing
  import Normalizer

  const TenTruyen: string := "T\U{00EA}n truy\U{1EC7}n"
  const TacGia: string := "T\U{00E1}c gi\U{1EA3}"
  const LinkTruyen: string := "Link truy\U{1EC7}n"
  const SoChuong: string := "S\U{1ED1} ch\U{01B0}\U{01A1}ng"
  const LuotXem: string := "L\U{01B0}\U{1EE3}t xem"
  const LuotTheoDoi: string := "L\U{01B0}\U{1EE3}t theo d\U{00F5}i"
  const DanhGia: string := "\U{0110}\U{00E1}nh gi\U{00E1}"
  const LuotDanhGia: string := "L\U{01B0}\U{1EE3}t \U{0111}\U{00E1}nh gi\U{00E1}"
  const SoBinhLuan: string := "S\U{1ED1} b\U{00EC}nh lu\U{1EAD}n"
  const TrangThai: string := "Tr\U{1EA1}ng th\U{00E1}i"
  const MoTa: string := "M\U{00F4} t\U{1EA3}"
  const TinhTrang: string := "T\U{00EC}nh tr\U{1EA1}ng"
  const NoName: string := "Kh\U{00F4}ng c\U{00F3} t\U{00EA}n"

  /** How a scraped value becomes a stored one. */
  datatype Conversion =
    | Copy          // stored as scraped
    | ChapterCount  // `int(v) if v.isdigit() else 0`
    | BiggestRun    // the Manhuavn crawler's `extract_number`
    | Reparse       // the Manhuavn crawler's `parse_number`

  datatype Field = Field(db: string, heading: string, default: Value, conv: Conversion)

  /** `int(v) if v.isdigit() else 0`; a value that is not text raises. */
  function ChapterValue(v: Value): (r: Option<int>)
    ensures r.Some? <==> v.Str?
    ensures v.Str? && IsNumeral(v.s) ==> r == Some(ToNat(v.s))
    ensures v.Str? && !IsNumeral(v.s) ==> r == Some(0)
  {
    match v
    case Str(s) => Some(if IsNumeral(s) then ToNat(s) else 0)
    case _ => None
  }

  /** The Manhuavn crawler's `extract_number`: the largest digit run of a text, 0 for anything else. */
  function BiggestRunValue(v: Value): (r: int)
    ensures r >= 0
    ensures v.Str? ==> r == MaxDigitRun(v.s)
  {
    if v.Str? then MaxDigitRun(v.s) else 0
  }

  /**
   * The Manhuavn crawler's `parse_number(v)`, which reads `str(v)`; `None`
   * stands for 0. The text of a float is not modelled (`None`).
   */
  function ParseValue(v: Value): (r: Option<int>)
    ensures r.None? <==> v.Float?
    ensures v.Null? ==> r == Some(0)
    ensures v.Str? ==> r == Some(ParseNumberManhuavn(Some(v.s)))
  {
    match v
    case Null => Some(ParseNumberManhuavn(None))
    case Int(i) => Some(ParseNumberManhuavn(Some(IntText(i))))
    case Float(_) => None
    case Str(s) => Some(ParseNumberManhuavn(Some(s)))
  }

  function Convert(conv: Conversion, v: Value): (r: Option<Value>) {
    match conv
    case Copy => Some(v)
    case ChapterCount => (match ChapterValue(v) case Some(n) => Some(Int(n)) case None => None)
    case BiggestRun => Some(Int(BiggestRunValue(v)))
    case Reparse => (match ParseValue(v) case Some(n) => Some(Int(n)) case None => None)
  }

  /** The stored value of one field of `raw`, `None` when converting it raises. */
  function FieldValue(raw: Dict, f: Field): Option<Value> {
    Convert(f.conv, Get(raw, f.heading, f.default))
  }

  function DbKeys(fields: seq<Field>): set<string> {
    set i | 0 <= i < |fields| :: fields[i].db
  }

  /** No key is written twice, as in a dictionary display. */
  predicate DistinctKeys(fields: seq<Field>) {
    forall i, j | 0 <= i < j < |fields| :: fields[i].db != fields[j].db
  }

  /**
   * The record a field table reads from `raw`: every field's key holds its
   * converted value, and the record fails exactly when some field's conversion raises.
   */
  function Project(raw: Dict, fields: seq<Field>): (r: Option<Dict>)
    requires DistinctKeys(fields)
    ensures r.Some? <==> forall i | 0 <= i < |fields| :: FieldValue(raw, fields[i]).Some?
    ensures r.Some? ==> r.value.Keys == DbKeys(fields)
    ensures r.Some? ==> forall i | 0 <= i < |fields| :: r.value[fields[i].db] == FieldValue(raw, fields[i]).value
    decreases |fields|
  {
    if |fields| == 0 then Some(map[])
    else
      var rest := fields[1..];
      assert forall i | 1 <= i < |fields| :: fields[i] == rest[i - 1];
      assert DbKeys(fields) == {fields[0].db} + DbKeys(rest);
      match FieldValue(raw, fields[0])
      case None => None
      case Some(v) =>
        match Project(raw, rest)
        case None => None
        case Some(d) => Some(d[fields[0].db := v])
  }

  /** A projected record stamped with its source site in `nguon`. */
  function Stamped(raw: Dict, fields: seq<Field>, site: string): (r: Option<Dict>)
    requires DistinctKeys(fields) && "nguon" !in DbKeys(fields)
    ensures r.Some? <==> forall i | 0 <= i < |fields| :: FieldValue(raw, fields[i]).Some?
    ensures r.Some? ==> r.value.Keys == DbKeys(fields) + {"nguon"}
    ensures r.Some? ==> r.value["nguon"] == Str(site)
    ensures r.Some? ==> forall i | 0 <= i < |fields| :: r.value[fields[i].db] == FieldValue(raw, fields[i]).value
  {
    match Project(raw, fields)
    case None => None
    case Some(d) => Some(d["nguon" := Str(site)])
  }

  // ---------------------------------------------------------------------------
  // NetTruyen

  const NetTruyenFields: seq<Field> := [
    Field("ten_truyen", TenTruyen, Str(""), Copy),
    Field("tac_gia", TacGia, Str("N/A"), Copy),
    Field("link_truyen", LinkTruyen, Str(""), Copy),
    Field("so_chuong", SoChuong, Int(0), Copy),
    Field("luot_xem", LuotXem, Int(0), Copy),
    Field("luot_theo_doi", LuotTheoDoi, Int(0), Copy),
    Field("rating", DanhGia, Str(""), Copy),
    Field("luot_danh_gia", LuotDanhGia, Int(0), Copy),
    Field("so_binh_luan", SoBinhLuan, Int(0), Copy),
    Field("trang_thai", TrangThai, Str(""), Copy)]

  lemma NetTruyenTable()
    ensures DistinctKeys(NetTruyenFields) && "nguon" !in DbKeys(NetTruyenFields)
    ensures forall i | 0 <= i < |NetTruyenFields| :: NetTruyenFields[i].conv == Copy
  {
  }

  /**
   * `NetTruyenCrawler.transform_comic_data`: the ten fields copied from their
   * labels, or their defaults, and `nguon` set to "NetTruyen"; nothing else.
   */
  function NetTruyenTransform(raw: Dict): (r: Dict)
    ensures r.Keys == DbKeys(NetTruyenFields) + {"nguon"}
    ensures r["nguon"] == Str("NetTruyen")
    ensures forall i | 0 <= i < |NetTruyenFields| :: r[NetTruyenFields[i].db] == Get(raw, NetTruyenFields[i].heading, NetTruyenFields[i].default)
  {
    NetTruyenTable();
    Stamped(raw, NetTruyenFields, "NetTruyen").value
  }

  // ---------------------------------------------------------------------------
  // Manhuavn

  const ManhuavnFields: seq<Field> := [
    Field("ten_truyen", TenTruyen, Str(""), Copy),
    Field("tac_gia", TacGia, Str("N/A"), Copy),
    Field("mo_ta", MoTa, Str(""), Copy),
    Field("link_truyen", LinkTruyen, Str(""), Copy),
    Field("so_chuong", SoChuong, Str("0"), ChapterCount),
    Field("luot_xem", LuotXem, Str("0"), Copy),
    Field("luot_theo_doi", LuotTheoDoi, Str("0"), BiggestRun),
    Field("danh_gia", DanhGia, Str("0"), Copy),
    Field("luot_danh_gia", LuotDanhGia, Str("0"), BiggestRun),
    Field("trang_thai", TinhTrang, Str(""), Copy)]

  lemma ManhuavnTable()
    ensures DistinctKeys(ManhuavnFields) && "nguon" !in DbKeys(ManhuavnFields)
    ensures forall i | 0 <= i < |ManhuavnFields| && i != 4 :: ManhuavnFields[i].conv in {Copy, BiggestRun}
    ensures ManhuavnFields[4] == Field("so_chuong", SoChuong, Str("0"), ChapterCount)
    ensures ManhuavnFields[6] == Field("luot_theo_doi", LuotTheoDoi, Str("0"), BiggestRun)
    ensures ManhuavnFields[8] == Field("luot_danh_gia", LuotDanhGia, Str("0"), BiggestRun)
  {
  }

  /**
   * `ManhuavnCrawler.transform_comic_data`: the chapter count must be text
   * (else `isdigit` raises), the follow and rating counts are read as their
   * largest digit run, and `nguon` is "Manhuavn".
   */
  function ManhuavnTransform(raw: Dict): (r: Option<Dict>)
    ensures r.Some? <==> Get(raw, SoChuong, Str("0")).Str?
    ensures r.Some? ==> r.value.Keys == DbKeys(ManhuavnFields) + {"nguon"}
    ensures r.Some? ==> r.value["nguon"] == Str("Manhuavn")
    ensures r.Some? ==> forall i | 0 <= i < |ManhuavnFields| :: r.value[ManhuavnFields[i].db] == FieldValue(raw, ManhuavnFields[i]).value
  {
    ManhuavnTable();
    assert forall i | 0 <= i < |ManhuavnFields| && i != 4 :: FieldValue(raw, ManhuavnFields[i]).Some?;
    assert FieldValue(raw, ManhuavnFields[4]) == Convert(ChapterCount, Get(raw, SoChuong, Str("0")));
    Stamped(raw, ManhuavnFields, "Manhuavn")
  }

  /**
   * A chapter label holding a numeral is stored as its number, any other text
   * as 0; the follow and rating counts are the largest digit runs of their labels.
   */
  lemma ManhuavnTransformCounts(raw: Dict, chapters: string)
    requires SoChuong in raw && raw[SoChuong] == Str(chapters)
    ensures var r := ManhuavnTransform(raw);
            r.Some? &&
            {"so_chuong", "luot_theo_doi", "luot_danh_gia"} <= r.value.Keys &&
            r.value["so_chuong"] == Int(if IsNumeral(chapters) then ToNat(chapters) else 0) &&
            r.value["luot_theo_doi"] == Int(BiggestRunValue(Get(raw, LuotTheoDoi, Str("0")))) &&
            r.value["luot_danh_gia"] == Int(BiggestRunValue(Get(raw, LuotDanhGia, Str("0"))))
  {
    ManhuavnTable();
    var r := ManhuavnTransform(raw).value;
    assert r["so_chuong"] == FieldValue(raw, ManhuavnFields[4]).value;
    assert r["luot_theo_doi"] == FieldValue(raw, ManhuavnFields[6]).value;
    assert r["luot_danh_gia"] == FieldValue(raw, ManhuavnFields[8]).value;
  }

  // ---------------------------------------------------------------------------
  // crawl_comic_details of the Manhuavn crawler

  /**
   * What the detail page yields: whether it loaded within the five tries, and
   * the safe texts of its fields (already "N/A" where a field is missing).
   */
  datatype DetailPage = DetailPage(
    loaded: bool,
    status: string,
    follows: string,
    views: string,
    rating: string,
    ratingCount: string,
    description: string,
    chapterText: string,
    author: string)

  /** The chapter count read off the page: the first digit run of the text, 0 for "N/A" or text without digits. */
  function ChapterOfText(t: string): (n: nat)
    ensures (forall i | 0 <= i < |t| :: !IsDigit(t[i])) ==> n == 0
    ensures t == "N/A" ==> n == 0
  {
    if t != "N/A" && FirstDigitRun(t).Some? then ToNat(FirstDigitRun(t).value) else 0
  }

  /** The chapter label the crawler stores in the scraped record: the first digit run, or "0". */
  function ChapterLabel(t: string): (r: string)
    ensures IsNumeral(r)
  {
    if t != "N/A" && FirstDigitRun(t).Some? then FirstDigitRun(t).value else "0"
  }

  /** A dictionary display: `keys[i]` maps to `values[i]`. */
  function Record(keys: seq<string>, values: seq<Value>): (r: Dict)
    requires |keys| == |values|
    requires forall i, j | 0 <= i < j < |keys| :: keys[i] != keys[j]
    ensures r.Keys == set i | 0 <= i < |keys| :: keys[i]
    ensures forall i | 0 <= i < |keys| :: r[keys[i]] == values[i]
    decreases |keys|
  {
    if |keys| == 0 then map[]
    else
      var rest := Record(keys[1..], values[1..]);
      assert forall i | 1 <= i < |keys| :: keys[i] == keys[1..][i - 1];
      assert (set i | 0 <= i < |keys| :: keys[i]) == {keys[0]} + (set i | 0 <= i < |keys[1..]| :: keys[1..][i]);
      rest[keys[0] := values[0]]
  }

  /** The labels of the scraped record, in the order the crawler fills them. */
  const StoryLabels: seq<string> :=
    [TenTruyen, LinkTruyen, TinhTrang, LuotTheoDoi, LuotXem, DanhGia, LuotDanhGia, MoTa, SoChuong, TacGia]

  lemma StoryLabelsDistinct()
    ensures forall i, j | 0 <= i < j < |StoryLabels| :: StoryLabels[i] != StoryLabels[j]
  {
  }

  /**
   * The scraped record of a loaded detail page: the entry's name (or a
   * placeholder) and link, the page's texts, the view count already parsed
   * once, and the chapter label.
   */
  function DetailStory(url: string, name: string, page: DetailPage, views: int, chapters: string): (story: Dict)
    ensures story.Keys == set i | 0 <= i < |StoryLabels| :: StoryLabels[i]
    ensures LuotXem in story && story[LuotXem] == Int(views)
    ensures SoChuong in story && story[SoChuong] == Str(chapters)
  {
    StoryLabelsDistinct();
    var values := [Str(name), Str(url), Str(page.status), Str(page.follows), Int(views), Str(page.rating),
                   Str(page.ratingCount), Str(page.description), Str(chapters), Str(page.author)];
    assert StoryLabels[4] == LuotXem && StoryLabels[8] == SoChuong;
    Record(StoryLabels, values)
  }

  /** The conversion of the scraped record to the database record; only the view count differs from the listing table. */
  const DetailFields: seq<Field> := ManhuavnFields[5 := Field("luot_xem", LuotXem, Str("0"), Reparse)]

  lemma DetailTable()
    ensures DistinctKeys(DetailFields) && "nguon" !in DbKeys(DetailFields)
    ensures DbKeys(DetailFields) == DbKeys(ManhuavnFields)
    ensures forall i | 0 <= i < |DetailFields| && i != 4 && i != 5 :: DetailFields[i].conv in {Copy, BiggestRun}
    ensures DetailFields[4] == Field("so_chuong", SoChuong, Str("0"), ChapterCount)
    ensures DetailFields[5] == Field("luot_xem", LuotXem, Str("0"), Reparse)
    ensures |DetailFields| == |ManhuavnFields| && DetailFields[5].db == ManhuavnFields[5].db
    ensures forall i | 0 <= i < |ManhuavnFields| && i != 5 :: ManhuavnFields[i] == DetailFields[i]
  {
    ManhuavnTable();
    assert forall i | 0 <= i < |DetailFields| :: DetailFields[i].db == ManhuavnFields[i].db;
  }

  /** Every field of a scraped record converts: the chapter label is text and the view count an integer. */
  lemma DetailStoryConverts(url: string, name: string, page: DetailPage, views: int, chapters: string)
    ensures forall i | 0 <= i < |DetailFields| :: FieldValue(DetailStory(url, name, page, views, chapters), DetailFields[i]).Some?
  {
    var story := DetailStory(url, name, page, views, chapters);
    DetailTable();
    assert Get(story, SoChuong, Str("0")).Str?;
    assert !Get(story, LuotXem, Str("0")).Float?;
  }

  /** The scraped record of a detail page for a listing entry, the counts read as the crawler reads them. */
  function StoryOf(entry: map<string, string>, page: DetailPage): Dict {
    var url := if LinkTruyen in entry then entry[LinkTruyen] else "";
    var name := if TenTruyen in entry then entry[TenTruyen] else NoName;
    DetailStory(url, name, page, ParseNumberManhuavn(Some(page.views)), ChapterLabel(page.chapterText))
  }

  /**
   * The database record the detail crawl returns for a listing entry, `None`
   * when its link is not a web address or the page never loaded. The view
   * count is parsed when scraped and parsed again when stored.
   */
  function ManhuavnDetails(entry: map<string, string>, page: DetailPage): (r: Option<Dict>)
    ensures var url := if LinkTruyen in entry then entry[LinkTruyen] else "";
            r.Some? <==> StartsWith(url, "http") && page.loaded
    ensures r.Some? ==> r.value.Keys == DbKeys(ManhuavnFields) + {"nguon"}
    ensures r.Some? ==> r.value["nguon"] == Str("Manhuavn")
  {
    var url := if LinkTruyen in entry then entry[LinkTruyen] else "";
    if !StartsWith(url, "http") || !page.loaded then None
    else
      var name := if TenTruyen in entry then entry[TenTruyen] else NoName;
      DetailTable();
      DetailStoryConverts(url, name, page, ParseNumberManhuavn(Some(page.views)), ChapterLabel(page.chapterText));
      Stamped(StoryOf(entry, page), DetailFields, "Manhuavn")
  }

  /** A count parsed again from its own text is unchanged. */
  lemma ReparseCount(n: int)
    requires n >= 0
    ensures Convert(Reparse, Int(n)) == Some(Int(n))
  {
    ParseValueOfCount(n);
  }

  lemma ParseValueOfCount(n: int)
    requires n >= 0
    ensures ParseValue(Int(n)) == Some(n)
  {
    assert IntText(n) == NatToString(n);
    ManhuavnOfNat(n);
  }

  /** The `i`-th field of the detail record is the `i`-th conversion of the scraped record. */
  lemma DetailField(entry: map<string, string>, page: DetailPage, i: nat)
    requires ManhuavnDetails(entry, page).Some? && i < |DetailFields|
    ensures var d := ManhuavnDetails(entry, page).value;
            DetailFields[i].db in d && Some(d[DetailFields[i].db]) == FieldValue(StoryOf(entry, page), DetailFields[i])
  {
    DetailTable();
    var story := StoryOf(entry, page);
    assert ManhuavnDetails(entry, page) == Stamped(story, DetailFields, "Manhuavn");
    StampedField(story, DetailFields, "Manhuavn", i);
  }

  lemma StampedField(raw: Dict, fields: seq<Field>, site: string, i: nat)
    requires DistinctKeys(fields) && "nguon" !in DbKeys(fields)
    requires Stamped(raw, fields, site).Some? && i < |fields|
    ensures fields[i].db in Stamped(raw, fields, site).value
    ensures Some(Stamped(raw, fields, site).value[fields[i].db]) == FieldValue(raw, fields[i])
  {
    assert fields[i].db in DbKeys(fields);
  }

  /** Parsing the view count a second time changes nothing: the stored count is the scraped text's reading. */
  lemma DetailsViewsParsedOnce(entry: map<string, string>, page: DetailPage)
    requires ManhuavnDetails(entry, page).Some?
    ensures var d := ManhuavnDetails(entry, page).value;
            "luot_xem" in d && d["luot_xem"] == Int(ParseNumberManhuavn(Some(page.views)))
  {
    var story := StoryOf(entry, page);
    DetailField(entry, page, 5);
    DetailTable();
    ManhuavnNonNegative(Some(page.views));
    ReparseCount(ParseNumberManhuavn(Some(page.views)));
  }

  /** The stored chapter count is the page's first digit run, or 0 for "N/A" or text without digits. */
  lemma DetailsChapterCount(entry: map<string, string>, page: DetailPage)
    requires ManhuavnDetails(entry, page).Some?
    ensures var d := ManhuavnDetails(entry, page).value;
            "so_chuong" in d && d["so_chuong"] == Int(ChapterOfText(page.chapterText))
  {
    DetailChapterEntry(entry, page);
    StoryChapters(entry, page);
    ChapterLabelCount(page.chapterText);
  }

  lemma DetailChapterEntry(entry: map<string, string>, page: DetailPage)
    requires ManhuavnDetails(entry, page).Some?
    ensures var d := ManhuavnDetails(entry, page).value;
            "so_chuong" in d && Some(d["so_chuong"]) == FieldValue(StoryOf(entry, page), Field("so_chuong", SoChuong, Str("0"), ChapterCount))
  {
    DetailField(entry, page, 4);
    DetailTable();
  }

  lemma StoryChapters(entry: map<string, string>, page: DetailPage)
    ensures Get(StoryOf(entry, page), SoChuong, Str("0")) == Str(ChapterLabel(page.chapterText))
  {
  }

  /** The chapter label, read back as a number, is the chapter count of the text. */
  lemma ChapterLabelCount(t: string)
    ensures ChapterValue(Str(ChapterLabel(t))) == Some(ChapterOfText(t))
  {
    if !(t != "N/A" && FirstDigitRun(t).Some?) {
      assert ToNat("0") == 0;
    }
  }

  /**
   * The detail record is exactly the listing transformation of the scraped
   * record: the listing transformation copies the view count the detail crawl
   * parses again, and parsing a parsed count changes nothing.
   */
  lemma DetailsAgreeWithTransform(entry: map<string, string>, page: DetailPage)
    requires ManhuavnDetails(entry, page).Some?
    ensures ManhuavnTransform(StoryOf(entry, page)) == ManhuavnDetails(entry, page)
  {
    DetailsAgreeExceptViews(entry, page);
    TransformViews(entry, page);
    DetailsViewsParsedOnce(entry, page);
    SameEntriesOneAside(ManhuavnTransform(StoryOf(entry, page)).value, ManhuavnDetails(entry, page).value, "luot_xem");
  }

  /** Two dictionaries with the same keys that agree everywhere, the one key `x` included, are equal. */
  lemma SameEntriesOneAside(t: Dict, d: Dict, x: string)
    requires t.Keys == d.Keys && forall k | k in d && k != x :: t[k] == d[k]
    requires x in d ==> t[x] == d[x]
    ensures t == d
  {
    assert forall k | k in d :: t[k] == d[k];
  }

  /** The listing transformation of the scraped record stores the view count as read from the page. */
  lemma TransformViews(entry: map<string, string>, page: DetailPage)
    requires ManhuavnDetails(entry, page).Some?
    ensures var t := ManhuavnTransform(StoryOf(entry, page));
            t.Some? && "luot_xem" in t.value && t.value["luot_xem"] == Int(ParseNumberManhuavn(Some(page.views)))
  {
    var story := StoryOf(entry, page);
    assert LuotXem in story && story[LuotXem] == Int(ParseNumberManhuavn(Some(page.views)));
    assert SoChuong in story && story[SoChuong].Str?;
    TransformCopiesViews(story);
  }

  /** The listing transformation copies the scraped view count unchanged. */
  lemma TransformCopiesViews(raw: Dict)
    requires SoChuong in raw && raw[SoChuong].Str? && LuotXem in raw
    ensures var t := ManhuavnTransform(raw);
            t.Some? && "luot_xem" in t.value && t.value["luot_xem"] == raw[LuotXem]
  {
    assert Get(raw, SoChuong, Str("0")).Str?;
    assert ManhuavnFields[5] == Field("luot_xem", LuotXem, Str("0"), Copy);
    assert FieldValue(raw, ManhuavnFields[5]) == Some(raw[LuotXem]);
    assert "luot_xem" in DbKeys(ManhuavnFields);
  }

  /** The detail record and the listing transformation agree on the keys and on every value but the view count. */
  lemma DetailsAgreeExceptViews(entry: map<string, string>, page: DetailPage)
    requires ManhuavnDetails(entry, page).Some?
    ensures var d := ManhuavnDetails(entry, page).value;
            var t := ManhuavnTransform(StoryOf(entry, page));
            t.Some? && t.value.Keys == d.Keys &&
            forall k | k in d && k != "luot_xem" :: t.value[k] == d[k]
  {
    var story := StoryOf(entry, page);
    var url := if LinkTruyen in entry then entry[LinkTruyen] else "";
    var name := if TenTruyen in entry then entry[TenTruyen] else NoName;
    DetailTable();
    ManhuavnTable();
    DetailStoryConverts(url, name, page, ParseNumberManhuavn(Some(page.views)), ChapterLabel(page.chapterText));
    StampedAgree(story, ManhuavnFields, DetailFields, 5, "Manhuavn");
  }

  /** Two tables that differ in one field's conversion give records that differ at most in that field. */
  lemma StampedAgree(raw: Dict, f: seq<Field>, g: seq<Field>, j: nat, site: string)
    requires |f| == |g| && j < |f| && f[j].db == g[j].db
    requires forall i | 0 <= i < |f| && i != j :: f[i] == g[i]
    requires DistinctKeys(f) && "nguon" !in DbKeys(f) && DistinctKeys(g) && "nguon" !in DbKeys(g)
    requires Stamped(raw, g, site).Some?
    ensures Stamped(raw, f, site).Some? <==> FieldValue(raw, f[j]).Some?
    ensures Stamped(raw, f, site).Some? ==>
              Stamped(raw, f, site).value.Keys == Stamped(raw, g, site).value.Keys &&
              forall k | k in Stamped(raw, g, site).value && k != f[j].db ::
                Stamped(raw, f, site).value[k] == Stamped(raw, g, site).value[k]
  {
    SameDbKeys(f, g);
    StampedAgreeDefined(raw, f, g, j, site);
    if Stamped(raw, f, site).Some? {
      StampedAgreeEntries(raw, f, g, j, site);
    }
  }

  lemma SameDbKeys(f: seq<Field>, g: seq<Field>)
    requires |f| == |g| && forall i | 0 <= i < |f| :: f[i].db == g[i].db
    ensures DbKeys(f) == DbKeys(g)
  {
    assert forall i | 0 <= i < |f| :: f[i].db in DbKeys(g);
    assert forall i | 0 <= i < |g| :: g[i].db in DbKeys(f);
  }

  lemma StampedAgreeDefined(raw: Dict, f: seq<Field>, g: seq<Field>, j: nat, site: string)
    requires |f| == |g| && j < |f|
    requires forall i | 0 <= i < |f| && i != j :: f[i] == g[i]
    requires DistinctKeys(f) && "nguon" !in DbKeys(f) && DistinctKeys(g) && "nguon" !in DbKeys(g)
    requires Stamped(raw, g, site).Some?
    ensures Stamped(raw, f, site).Some? <==> FieldValue(raw, f[j]).Some?
  {
    assert forall i | 0 <= i < |g| :: FieldValue(raw, g[i]).Some?;
  }

  lemma StampedAgreeEntries(raw: Dict, f: seq<Field>, g: seq<Field>, j: nat, site: string)
    requires |f| == |g| && j < |f| && f[j].db == g[j].db
    requires forall i | 0 <= i < |f| && i != j :: f[i] == g[i]
    requires DistinctKeys(f) && "nguon" !in DbKeys(f) && DistinctKeys(g) && "nguon" !in DbKeys(g)
    requires DbKeys(f) == DbKeys(g)
    requires Stamped(raw, g, site).Some? && Stamped(raw, f, site).Some?
    ensures Stamped(raw, f, site).value.Keys == Stamped(raw, g, site).value.Keys
    ensures forall k | k in Stamped(raw, g, site).value && k != f[j].db ::
              Stamped(raw, f, site).value[k] == Stamped(raw, g, site).value[k]
  {
    var r := Stamped(raw, f, site).value;
    var q := Stamped(raw, g, site).value;
    forall k | k in q && k != f[j].db
      ensures r[k] == q[k]
    {
      if k != "nguon" {
        var i :| 0 <= i < |g| && g[i].db == k;
        assert f[i] == g[i];
      }
    }
  }

  // ---------------------------------------------------------------------------
  // Transformation followed by normalisation

  /** The fields normalising adds to a transformed NetTruyen record. */
  function NetTruyenAdded(): set<string> {
    {"the_loai", "mo_ta", "luot_thich"}
  }

  /** Every base default key is a key of the transformed record or one of the added fields. */
  lemma NetTruyenBaseCovered()
    ensures forall k | k in Normalizer.BaseDefaults("NetTruyen") :: k in DbKeys(NetTruyenFields) || k == "nguon" || k in NetTruyenAdded()
  {
    var fs := NetTruyenFields;
    assert fs[0].db in DbKeys(fs) && fs[1].db in DbKeys(fs) && fs[2].db in DbKeys(fs);
    assert fs[3].db in DbKeys(fs) && fs[4].db in DbKeys(fs) && fs[9].db in DbKeys(fs);
  }

  /** Every NetTruyen default key is a key of the transformed record or one of the added fields. */
  lemma NetTruyenSourceCovered()
    ensures forall k | k in Normalizer.SourceDefaults("NetTruyen") :: k in DbKeys(NetTruyenFields) || k in NetTruyenAdded()
  {
    var fs := NetTruyenFields;
    assert fs[5].db in DbKeys(fs) && fs[6].db in DbKeys(fs) && fs[7].db in DbKeys(fs) && fs[8].db in DbKeys(fs);
  }

  /**
   * Normalising a transformed NetTruyen record adds only the missing base and
   * NetTruyen fields and keeps its source.
   */
  lemma NormalizedNetTruyenRecord(raw: Dict)
    ensures var t := NetTruyenTransform(raw);
            var n := Normalizer.Normalize(t, "NetTruyen");
            n.Keys == t.Keys + NetTruyenAdded() &&
            "nguon" in n && n["nguon"] == Str("NetTruyen")
  {
    var t := NetTruyenTransform(raw);
    NormalizedNetTruyenKeys(t);
    NormalizedNetTruyenSource(t);
  }

  lemma NormalizedNetTruyenKeys(t: Dict)
    requires t.Keys == DbKeys(NetTruyenFields) + {"nguon"}
    ensures Normalizer.Normalize(t, "NetTruyen").Keys == t.Keys + NetTruyenAdded()
  {
    var base := Normalizer.BaseDefaults("NetTruyen").Keys;
    var extra := Normalizer.SourceDefaults("NetTruyen").Keys;
    assert Normalizer.Normalize(t, "NetTruyen").Keys == t.Keys + base + extra;
    NetTruyenBaseCovered();
    NetTruyenSourceCovered();
    assert NetTruyenAdded() <= base + extra;
    assert base + extra <= t.Keys + NetTruyenAdded();
  }

  lemma NormalizedNetTruyenSource(t: Dict)
    requires "nguon" in t && t["nguon"] == Str("NetTruyen")
    ensures "nguon" in Normalizer.Normalize(t, "NetTruyen") && Normalizer.Normalize(t, "NetTruyen")["nguon"] == Str("NetTruyen")
  {
    Normalizer.NormalizeKeepsFields(t, "NetTruyen");
    assert !Normalizer.Converted("NetTruyen", "nguon");
  }
}
