/** The single-row `site_settings` table (services/settingsService.ts). */
module SettingsService {
  import opened Types
  import opened Text

  /** SiteSettings of types.ts. The last three fields are typed as strings there, but nothing the
      service returns ever sets them, so they are modelled as possibly undefined. */
  datatype SiteSettings = SiteSettings(
    siteName: string,
    heroTitle: string,
    heroHighlight: string,
    heroSubtitle: string,
    footerQuote: string,
    footerCopyright: string,
    aboutTitle: string,
    aboutQuote: string,
    aboutTextPrimary: Option<string>,
    aboutTextSecondary: Option<string>,
    geminiApiKey: Option<string>)

  /** A row of `site_settings`: the generated id and the eight snake_case columns, each possibly NULL. */
  datatype SettingsRow = SettingsRow(
    id: int,
    site_name: Option<string>,
    hero_title: Option<string>,
    hero_highlight: Option<string>,
    hero_subtitle: Option<string>,
    footer_quote: Option<string>,
    footer_copyright: Option<string>,
    about_title: Option<string>,
    about_quote: Option<string>)

  const DEFAULT_SETTINGS := SiteSettings(
    "BEYAZBULUT",
    "Ruhun",
    "Yankısı",
    "Kelimelerin en saf hali. Pastel tonların huzurunda, duyguların edebi yolculuğu.",
    "\"Kelimelerin hafifliği, ruhun kanatlarıdır.\"",
    "© 2024 BeyazBulut. Tüm hakları saklıdır.",
    "Hikayemiz",
    "\"Her kelime, ruhun bir yansımasıdır.\"",
    None, None, None)

  /** getSettings: the defaults when the query fails, throws or finds no row; otherwise the first
      row's columns, each falling back to its default when it is NULL or empty. */
  function GetSettings(rows: seq<SettingsRow>, queryOk: bool): (s: SiteSettings)
    ensures !queryOk || rows == [] ==> s == DEFAULT_SETTINGS
    ensures s.aboutTextPrimary.None? && s.aboutTextSecondary.None? && s.geminiApiKey.None?
    ensures s.siteName != "" && s.heroTitle != "" && s.heroHighlight != "" && s.heroSubtitle != ""
    ensures s.footerQuote != "" && s.footerCopyright != "" && s.aboutTitle != "" && s.aboutQuote != ""
  {
    if !queryOk || rows == [] then DEFAULT_SETTINGS
    else
      var d := DEFAULT_SETTINGS;
      var row := rows[0];
      SiteSettings(
        OrDefault(row.site_name, d.siteName),
        OrDefault(row.hero_title, d.heroTitle),
        OrDefault(row.hero_highlight, d.heroHighlight),
        OrDefault(row.hero_subtitle, d.heroSubtitle),
        OrDefault(row.footer_quote, d.footerQuote),
        OrDefault(row.footer_copyright, d.footerCopyright),
        OrDefault(row.about_title, d.aboutTitle),
        OrDefault(row.about_quote, d.aboutQuote),
        None, None, None)
  }

  /** With a row to read, every mapped field is the first row's column when that column is
      truthy, and the field's default when it is NULL or empty. */
  lemma FirstRowColumnsWin(rows: seq<SettingsRow>)
    requires rows != []
    ensures var s, row, d := GetSettings(rows, true), rows[0], DEFAULT_SETTINGS;
            (s.siteName == if Truthy(row.site_name) then row.site_name.value else d.siteName)
            && (s.heroTitle == if Truthy(row.hero_title) then row.hero_title.value else d.heroTitle)
            && (s.heroHighlight == if Truthy(row.hero_highlight) then row.hero_highlight.value else d.heroHighlight)
            && (s.heroSubtitle == if Truthy(row.hero_subtitle) then row.hero_subtitle.value else d.heroSubtitle)
            && (s.footerQuote == if Truthy(row.footer_quote) then row.footer_quote.value else d.footerQuote)
            && (s.footerCopyright == if Truthy(row.footer_copyright) then row.footer_copyright.value else d.footerCopyright)
            && (s.aboutTitle == if Truthy(row.about_title) then row.about_title.value else d.aboutTitle)
            && (s.aboutQuote == if Truthy(row.about_quote) then row.about_quote.value else d.aboutQuote)
  {
  }

  /** saveSettings' payload: the eight camelCase fields, one to one, on their snake_case columns. */
  function Payload(id: int, s: SiteSettings): (row: SettingsRow)
    ensures row.id == id
    ensures row.site_name == Some(s.siteName) && row.hero_title == Some(s.heroTitle)
    ensures row.hero_highlight == Some(s.heroHighlight) && row.hero_subtitle == Some(s.heroSubtitle)
    ensures row.footer_quote == Some(s.footerQuote) && row.footer_copyright == Some(s.footerCopyright)
    ensures row.about_title == Some(s.aboutTitle) && row.about_quote == Some(s.aboutQuote)
  {
    SettingsRow(id, Some(s.siteName), Some(s.heroTitle), Some(s.heroHighlight), Some(s.heroSubtitle),
                Some(s.footerQuote), Some(s.footerCopyright), Some(s.aboutTitle), Some(s.aboutQuote))
  }

  /** What a save then a load yields: each saved field, or its default where it was saved empty;
      the three unmapped fields are lost. */
  function Reloaded(s: SiteSettings): SiteSettings
  {
    var d := DEFAULT_SETTINGS;
    SiteSettings(
      if s.siteName != "" then s.siteName else d.siteName,
      if s.heroTitle != "" then s.heroTitle else d.heroTitle,
      if s.heroHighlight != "" then s.heroHighlight else d.heroHighlight,
      if s.heroSubtitle != "" then s.heroSubtitle else d.heroSubtitle,
      if s.footerQuote != "" then s.footerQuote else d.footerQuote,
      if s.footerCopyright != "" then s.footerCopyright else d.footerCopyright,
      if s.aboutTitle != "" then s.aboutTitle else d.aboutTitle,
      if s.aboutQuote != "" then s.aboutQuote else d.aboutQuote,
      None, None, None)
  }

  /** The rows saveSettings leaves: the first row updated when the id query found one, else a new
      row inserted; unchanged when the write reports an error. */
  function SavedRows(rows: seq<SettingsRow>, s: SiteSettings, selectOk: bool, writeOk: bool, newId: int)
    : (r: seq<SettingsRow>)
    ensures !writeOk ==> r == rows
    ensures writeOk && selectOk && rows != [] ==> |r| == |rows| && r[1..] == rows[1..]
    ensures writeOk && !(selectOk && rows != []) ==> |r| == |rows| + 1 && r[..|rows|] == rows
    ensures writeOk && selectOk && rows != [] ==> r[0] == Payload(rows[0].id, s)
    ensures writeOk && !(selectOk && rows != []) ==> r[|rows|] == Payload(newId, s)
  {
    if !writeOk then rows
    else if selectOk && rows != [] then [Payload(rows[0].id, s)] + rows[1..]
    else rows + [Payload(newId, s)]
  }

  /** Round trip: after a successful save that updated the first row or filled an empty table,
      loading yields every saved non-empty field unchanged and the default for every empty one. */
  lemma SaveThenLoad(rows: seq<SettingsRow>, s: SiteSettings, selectOk: bool, newId: int)
    requires selectOk || rows == []
    ensures GetSettings(SavedRows(rows, s, selectOk, true, newId), true) == Reloaded(s)
  {
    var r := SavedRows(rows, s, selectOk, true, newId);
    assert r[0] == Payload(if rows == [] then newId else rows[0].id, s);
  }

  /** Saving settings whose eight fields are all non-empty and reloading them gives them back,
      except the three fields the service never maps. */
  lemma SaveThenLoadNonEmpty(rows: seq<SettingsRow>, s: SiteSettings, selectOk: bool, newId: int)
    requires selectOk || rows == []
    requires s.siteName != "" && s.heroTitle != "" && s.heroHighlight != "" && s.heroSubtitle != ""
    requires s.footerQuote != "" && s.footerCopyright != "" && s.aboutTitle != "" && s.aboutQuote != ""
    ensures GetSettings(SavedRows(rows, s, selectOk, true, newId), true)
            == s.(aboutTextPrimary := None, aboutTextSecondary := None, geminiApiKey := None)
  {
    SaveThenLoad(rows, s, selectOk, newId);
  }

  /** When the id query fails on a table that already has a row, the save inserts a second row
      and the next load still reads the first one: the saved values are not seen. */
  lemma SaveAfterFailedSelectIsNotSeen(rows: seq<SettingsRow>, s: SiteSettings, newId: int)
    requires rows != []
    ensures GetSettings(SavedRows(rows, s, false, true, newId), true) == GetSettings(rows, true)
  {
  }

  class SettingsTable {
    var rows: seq<SettingsRow>

    constructor (rows: seq<SettingsRow>)
      ensures this.rows == rows
    {
      this.rows := rows;
    }

    /** saveSettings: reads the first row's id, updates that row or else inserts one, and reports
        whether the write succeeded. A failed id query reads as "no row". */
    method SaveSettings(s: SiteSettings, selectOk: bool, writeOk: bool, newId: int) returns (ok: bool)
      modifies this
      ensures ok == writeOk
      ensures rows == SavedRows(old(rows), s, selectOk, writeOk, newId)
    {
      var found := if selectOk then rows else [];
      if found != [] {
        if writeOk {
          rows := [Payload(found[0].id, s)] + rows[1..];
        }
      } else {
        if writeOk {
          rows := rows + [Payload(newId, s)];
        }
      }
      ok := writeOk;
    }
  }
}
