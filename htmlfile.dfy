/** A worksheet saved as an HTML page: the one-line records the page is
    made of, the dumper that lays them out, and `save_html`, which renders a
    sheet's materialised grid as the page's table. */
module HtmlFile {
  import opened Wrappers
  import opened Values
  import opened Grid
  import opened TableGen
  import BaseWriter

  /** An `HtmlRecord`: the text of one piece of the page. */
  datatype HtmlRecord = HtmlRecord(record: string)
  {
    /** `get()`: the record and a line break. */
    function Get(): string
    {
      record + "\n"
    }
  }

  function DocTypeRecord(): HtmlRecord
  {
    HtmlRecord("<!DOCTYPE html>")
  }

  /** `HeaderRecord(eof)`: the closing tag when `eof`, else the opening one. */
  function HeaderRecord(eof: bool): HtmlRecord
  {
    HtmlRecord(if eof then "</head>" else "<head>")
  }

  function HtmlTagRecord(eof: bool): HtmlRecord
  {
    HtmlRecord(if eof then "</html>" else "<html>")
  }

  function BodyRecord(eof: bool): HtmlRecord
  {
    HtmlRecord(if eof then "</body>" else "<body>")
  }

  /** `TitleRecord(title)`: the title as given, not escaped. */
  function TitleRecord(title: string): HtmlRecord
  {
    HtmlRecord("<title>" + title + "</title>")
  }

  /** `TableRecord(tbl, generator)`: the generator's whole content. */
  method MakeTableRecord(tbl: TableGen.Table, style: Style) returns (r: HtmlRecord)
    ensures r.record == TableGen.Header(style) + Concat(TableLines(style, tbl))
  {
    var text := GenerateTable(tbl, style);
    r := HtmlRecord(text);
  }

  /** The text before the title. */
  const Preamble: string := "<!DOCTYPE html>\n" + "<html>\n" + "<head>\n" + "<title>"

  /** The text between the title and the table code. */
  const Middle: string := "</title>\n" + "</head>\n" + "<body>\n"

  /** The text after the table code. */
  const Closing: string := "</body>\n" + "</html>\n"

  /** The page `pre_to_export` lays out for a title and a table's code. */
  function Document(title: string, tableCode: string): string
  {
    Preamble + title + Middle + tableCode + Closing
  }

  lemma PreambleOfRecords()
    ensures DocTypeRecord().Get() + HtmlTagRecord(false).Get() + HeaderRecord(false).Get() + "<title>" == Preamble
  {
  }

  lemma MiddleOfRecords()
    ensures "</title>\n" + HeaderRecord(true).Get() + BodyRecord(false).Get() == Middle
  {
  }

  lemma ClosingOfRecords()
    ensures BodyRecord(true).Get() + HtmlTagRecord(true).Get() == Closing
  {
  }

  lemma TitleOfRecord(title: string)
    ensures TitleRecord(title).Get() == "<title>" + title + "</title>\n"
  {
  }

  /** Nine pieces appended one at a time, regrouped around the title and
      the table code. */
  lemma Regroup(o: string, g1: string, g2: string, g3: string, open: string, t: string, close: string,
                g5: string, g6: string, code: string, g8: string, g9: string)
    ensures o + g1 + g2 + g3 + (open + t + close) + g5 + g6 + code + g8 + g9 ==
      o + ((g1 + g2 + g3 + open) + t + (close + g5 + g6) + code + (g8 + g9))
  {
  }

  /** The records of the page, added one after the other as the dumper adds
      them, make up `Document`. */
  lemma DocumentOfRecords(o: string, title: string, tableCode: string)
    ensures o + DocTypeRecord().Get() + HtmlTagRecord(false).Get() + HeaderRecord(false).Get() +
      TitleRecord(title).Get() + HeaderRecord(true).Get() + BodyRecord(false).Get() +
      tableCode + BodyRecord(true).Get() + HtmlTagRecord(true).Get() == o + Document(title, tableCode)
  {
    TitleOfRecord(title);
    PreambleOfRecords();
    MiddleOfRecords();
    ClosingOfRecords();
    Regroup(o, DocTypeRecord().Get(), HtmlTagRecord(false).Get(), HeaderRecord(false).Get(), "<title>", title,
      "</title>\n", HeaderRecord(true).Get(), BodyRecord(false).Get(), tableCode,
      BodyRecord(true).Get(), HtmlTagRecord(true).Get());
  }

  /** Text split as `p + t + m + c + s`, where `t` holds no character `m`
      starts with, determines `t` and `c`. */
  lemma {:induction false} SplitInjective(p: string, m: string, s: string, t1: string, c1: string, t2: string, c2: string)
    requires |m| > 0 && m[0] !in t1 && m[0] !in t2
    requires p + t1 + m + c1 + s == p + t2 + m + c2 + s
    ensures t1 == t2 && c1 == c2
  {
    var d := p + t1 + m + c1 + s;
    var e := p + t2 + m + c2 + s;
    if |t1| < |t2| {
      Positions(p, t1, m, c1, s);
      Positions(p, t2, m, c2, s);
      assert false;
    } else if |t2| < |t1| {
      Positions(p, t1, m, c1, s);
      Positions(p, t2, m, c2, s);
      assert false;
    } else {
      assert t1 == d[|p|..|p| + |t1|];
      assert t2 == e[|p|..|p| + |t2|];
      assert c1 == d[|p| + |t1| + |m|..|d| - |s|];
      assert c2 == e[|p| + |t2| + |m|..|e| - |s|];
    }
  }

  /** Where `t` and the first character of `m` sit in `p + t + m + c + s`. */
  lemma Positions(p: string, t: string, m: string, c: string, s: string)
    requires |m| > 0
    ensures (p + t + m + c + s)[|p| + |t|] == m[0]
    ensures forall i :: 0 <= i < |t| ==> (p + t + m + c + s)[|p| + i] == t[i]
  {
  }

  /** A page gives back its title and its table code, as long as the title
      holds no `<`: the title ends at the first `<` after the preamble, and
      the code sits between the fixed middle and closing text. */
  lemma DocumentInjective(t1: string, c1: string, t2: string, c2: string)
    requires '<' !in t1 && '<' !in t2
    requires Document(t1, c1) == Document(t2, c2)
    ensures t1 == t2 && c1 == c2
  {
    assert Middle[0] == '<';
    SplitInjective(Preamble, Middle, Closing, t1, c1, t2, c2);
  }

  /** An `HtmlDumper`: the page's title, its table code, and the text laid
      out so far. */
  class HtmlDumper {
    const title: string
    const tableCode: string
    var contents: string

    constructor (tableCode: string, title: string)
      ensures this.title == title && this.tableCode == tableCode && contents == ""
    {
      this.title := title;
      this.tableCode := tableCode;
      contents := "";
    }

    /** `pre_to_export()`: the page is added to what is there already, so a
        second call lays it out twice. */
    method PreToExport()
      modifies this
      ensures contents == old(contents) + Document(title, tableCode)
    {
      contents := contents + DocTypeRecord().Get();
      contents := contents + HtmlTagRecord(false).Get();
      contents := contents + HeaderRecord(false).Get();
      contents := contents + TitleRecord(title).Get();
      contents := contents + HeaderRecord(true).Get();
      contents := contents + BodyRecord(false).Get();
      contents := contents + tableCode;
      contents := contents + BodyRecord(true).Get();
      contents := contents + HtmlTagRecord(true).Get();
      DocumentOfRecords(old(contents), title, tableCode);
    }
  }

  /** What `save_html` hands to the file: the grid's table rendered by the
      generator, with the sheet's name as the title. */
  function SavedPage(name: string, style: Style, t: TableGen.Table): string
  {
    Document(name, TableGen.Header(style) + Concat(TableLines(style, t)) + "\n")
  }

  lemma EmptyPrefix(s: string)
    ensures "" + s == s
  {
  }

  /** `save_html(sheet, file, table_generator)` up to the file write: the
      text that is written, or the error `get_grid` or `get` raises.  The
      sheet's grid, if any, is a list grid (as `HTMLSheet` makes it) whose
      cache, if any, holds a table. */
  method SaveHtml(sheet: BaseWriter.WriteSheet, style: Style) returns (r: Result<string>)
    requires sheet.grid != null ==> sheet.grid.kind == ListKind
    requires sheet.grid != null && sheet.grid.cache.Some? ==> sheet.grid.cache.value.Rows?
    modifies sheet.grid
    ensures sheet.grid == null ==> r == Err(AttributeError)
    ensures sheet.grid != null && old(sheet.grid.cache).Some? && old(sheet.grid.cache).value.Truthy() ==>
      r == Ok(SavedPage(sheet.name, style, old(sheet.grid.cache).value.rows))
    ensures sheet.grid != null && !(old(sheet.grid.cache).Some? && old(sheet.grid.cache).value.Truthy()) ==>
      (r.Ok? <==> Materialize(sheet.grid.records).Ok?) &&
      (r.Ok? ==> r.value == SavedPage(sheet.name, style, Materialize(sheet.grid.records).value)) &&
      (r.Err? ==> r.error == Materialize(sheet.grid.records).error)
    ensures sheet.grid != null ==> sheet.grid.records == old(sheet.grid.records)
    ensures sheet.grid != null && old(sheet.grid.cache).Some? && old(sheet.grid.cache).value.Truthy() ==>
      sheet.grid.cache == old(sheet.grid.cache)
    ensures sheet.grid != null && !(old(sheet.grid.cache).Some? && old(sheet.grid.cache).value.Truthy()) ==>
      sheet.grid.cache ==
        (if Materialize(sheet.grid.records).Ok? then Some(Rows(Materialize(sheet.grid.records).value))
         else old(sheet.grid.cache))
  {
    var g := sheet.GetGrid();
    if g.Err? {
      return Err(g.error);
    }
    var table := g.value.Get();
    if table.Err? {
      return Err(table.error);
    }
    var page := RenderPage(sheet.name, style, table.value.rows);
    r := Ok(page);
  }

  /** The table record made, then laid out by a fresh dumper. */
  method RenderPage(name: string, style: Style, rows: TableGen.Table) returns (page: string)
    ensures page == SavedPage(name, style, rows)
  {
    var code := MakeTableRecord(rows, style);
    var dumper := new HtmlDumper(code.Get(), name);
    dumper.PreToExport();
    EmptyPrefix(Document(name, code.Get()));
    page := dumper.contents;
  }

  /** `HTMLSheet(title)`: a sheet that writes into a list grid. */
  method HtmlSheet(title: string) returns (ws: BaseWriter.WriteSheet)
    ensures fresh(ws) && ws.name == title && ws.records == []
    ensures ws.grid != null && fresh(ws.grid)
    ensures ws.grid.kind == ListKind && ws.grid.records == [] && ws.grid.cache == None
  {
    ws := new BaseWriter.WriteSheet(title, Some(ListKind));
  }
}
