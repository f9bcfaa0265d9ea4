/** The single-row `seo_settings` table (services/seoService.ts). */
module SeoService {
  import opened Types
  import opened Text

  datatype SeoSettings = SeoSettings(
    metaTitle: string,
    metaDescription: string,
    metaKeywords: string,
    ogImageUrl: string)

  /** A row of `seo_settings`: the generated id and four snake_case columns, each possibly NULL. */
  datatype SeoRow = SeoRow(
    id: int,
    meta_title: Option<string>,
    meta_description: Option<string>,
    meta_keywords: Option<string>,
    og_image_url: Option<string>)

  const DEFAULT_SEO := SeoSettings(
    "BEYAZBULUT - Estetik Şiir Platformu",
    "En güzel şiirlerin, huzurlu ve estetik bir ortamda paylaşıldığı dijital edebiyat durağı.",
    "şiir, edebiyat, aşk şiirleri, estetik, beyazbulut",
    "")

  /** getSeoSettings: the defaults when the query fails, throws or finds no row; otherwise the
      first row's columns, each falling back to its default when NULL or empty. */
  function GetSeoSettings(rows: seq<SeoRow>, queryOk: bool): (s: SeoSettings)
    ensures !queryOk || rows == [] ==> s == DEFAULT_SEO
    ensures s.metaTitle != "" && s.metaDescription != "" && s.metaKeywords != ""
    ensures queryOk && rows != [] && rows[0].og_image_url.Some? ==> s.ogImageUrl == rows[0].og_image_url.value
    ensures queryOk && rows != [] && rows[0].og_image_url.None? ==> s.ogImageUrl == ""
  {
    if !queryOk || rows == [] then DEFAULT_SEO
    else
      var d := DEFAULT_SEO;
      var row := rows[0];
      SeoSettings(
        OrDefault(row.meta_title, d.metaTitle),
        OrDefault(row.meta_description, d.metaDescription),
        OrDefault(row.meta_keywords, d.metaKeywords),
        OrDefault(row.og_image_url, d.ogImageUrl))
  }

  /** With a row to read, every field is the first row's column when that column is truthy, and
      the field's default when it is NULL or empty. */
  lemma FirstSeoRowColumnsWin(rows: seq<SeoRow>)
    requires rows != []
    ensures var s, row, d := GetSeoSettings(rows, true), rows[0], DEFAULT_SEO;
            (s.metaTitle == if Truthy(row.meta_title) then row.meta_title.value else d.metaTitle)
            && (s.metaDescription == if Truthy(row.meta_description) then row.meta_description.value else d.metaDescription)
            && (s.metaKeywords == if Truthy(row.meta_keywords) then row.meta_keywords.value else d.metaKeywords)
            && (s.ogImageUrl == if Truthy(row.og_image_url) then row.og_image_url.value else d.ogImageUrl)
  {
  }

  /** saveSeoSettings' payload: the four fields, one to one, on their snake_case columns. */
  function SeoPayload(id: int, s: SeoSettings): (row: SeoRow)
    ensures row.id == id
    ensures row.meta_title == Some(s.metaTitle) && row.meta_description == Some(s.metaDescription)
    ensures row.meta_keywords == Some(s.metaKeywords) && row.og_image_url == Some(s.ogImageUrl)
  {
    SeoRow(id, Some(s.metaTitle), Some(s.metaDescription), Some(s.metaKeywords), Some(s.ogImageUrl))
  }

  /** The rows saveSeoSettings leaves: the first row updated when the id query found one, else a
      new row inserted; unchanged when the write reports an error. */
  function SavedSeoRows(rows: seq<SeoRow>, s: SeoSettings, selectOk: bool, writeOk: bool, newId: int)
    : (r: seq<SeoRow>)
    ensures !writeOk ==> r == rows
    ensures writeOk && selectOk && rows != [] ==> |r| == |rows| && r[1..] == rows[1..]
    ensures writeOk && !(selectOk && rows != []) ==> |r| == |rows| + 1 && r[..|rows|] == rows
    ensures writeOk && selectOk && rows != [] ==> r[0] == SeoPayload(rows[0].id, s)
    ensures writeOk && !(selectOk && rows != []) ==> r[|rows|] == SeoPayload(newId, s)
  {
    if !writeOk then rows
    else if selectOk && rows != [] then [SeoPayload(rows[0].id, s)] + rows[1..]
    else rows + [SeoPayload(newId, s)]
  }

  /** Round trip: after a successful save that updated the first row or filled an empty table,
      each non-empty field reads back unchanged and each empty one as its default. Because the
      default image URL is empty, the image URL always reads back exactly as saved. */
  lemma SeoSaveThenLoad(rows: seq<SeoRow>, s: SeoSettings, selectOk: bool, newId: int)
    requires selectOk || rows == []
    ensures var r := GetSeoSettings(SavedSeoRows(rows, s, selectOk, true, newId), true);
            && r.metaTitle == (if s.metaTitle != "" then s.metaTitle else DEFAULT_SEO.metaTitle)
            && r.metaDescription == (if s.metaDescription != "" then s.metaDescription else DEFAULT_SEO.metaDescription)
            && r.metaKeywords == (if s.metaKeywords != "" then s.metaKeywords else DEFAULT_SEO.metaKeywords)
            && r.ogImageUrl == s.ogImageUrl
  {
    var saved := SavedSeoRows(rows, s, selectOk, true, newId);
    assert saved[0] == SeoPayload(if rows == [] then newId else rows[0].id, s);
  }

  class SeoTable {
    var rows: seq<SeoRow>

    constructor (rows: seq<SeoRow>)
      ensures this.rows == rows
    {
      this.rows := rows;
    }

    /** saveSeoSettings: updates the first row, or inserts one when the id query finds none, and
        reports whether the write succeeded. */
    method SaveSeoSettings(s: SeoSettings, selectOk: bool, writeOk: bool, newId: int) returns (ok: bool)
      modifies this
      ensures ok == writeOk
      ensures rows == SavedSeoRows(old(rows), s, selectOk, writeOk, newId)
    {
      var found := if selectOk then rows else [];
      if found != [] {
        if writeOk {
          rows := [SeoPayload(found[0].id, s)] + rows[1..];
        }
      } else {
        if writeOk {
          rows := rows + [SeoPayload(newId, s)];
        }
      }
      ok := writeOk;
    }
  }
}
