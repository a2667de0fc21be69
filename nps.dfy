/** app/routers/nps.py: `finalizar_nps` checks that the term and the
    exceptions report exist on the local file system, renders the survey
    document (with page breaks), merges the three documents, uploads the
    merged file and marks the process finished. The page height is the
    parameter `height`; the cursor starts at `height - 50`. */
module Nps {
  import opened Common
  import opened Text
  import opened Layout
  import opened Stores
  import Codec
  import Merge
  import Upload

  /** A page break follows a line that leaves the cursor below this. */
  const Bottom: int := 80
  const MarginX: int := 40
  const LineX: int := 50
  /** Feedback lines are cut to this many characters. */
  const LineWidth: nat := 110

  /** The request body (`NPSRequest`); the values of both dictionaries are
      given in the text form the f-strings print, in dictionary order. */
  datatype NpsRequest = NpsRequest(
    processoId: string,
    nps: int,
    avaliacoes: seq<(string, string)>,
    feedback: seq<(string, string)>)

  function Top(height: int): int
  {
    height - 50
  }

  /** Draws `text` at `x` on the cursor line and moves down by `dy`; when
      that leaves the cursor below 80 the page is closed and the cursor
      returns to the top. */
  function LineThenBreak(cur: Cursor, x: int, text: string, dy: int, height: int): (r: Cursor)
    ensures r.y >= Bottom || r.y == Top(height)
    ensures r.sheet.done == cur.sheet.done <==> cur.y - dy >= Bottom
  {
    var s := Place(cur.sheet, Text(x, cur.y, text));
    if cur.y - dy < Bottom then Cursor(NewPage(s), Top(height)) else Cursor(s, cur.y - dy)
  }

  function RatingLine(k: string, v: string): string
  {
    k + ": " + v
  }

  /** The ratings loop over a prefix of the ratings. */
  function Ratings(cur: Cursor, rs: seq<(string, string)>, height: int): Cursor
    decreases |rs|
  {
    if rs == [] then cur
    else
      var last := rs[|rs| - 1];
      LineThenBreak(Ratings(cur, rs[..|rs| - 1], height), MarginX, RatingLine(last.0, last.1), 15, height)
  }

  /** The inner loop over the lines of one feedback text. */
  function Lines(cur: Cursor, lines: seq<string>, height: int): Cursor
    decreases |lines|
  {
    if lines == [] then cur
    else
      LineThenBreak(Lines(cur, lines[..|lines| - 1], height), LineX, Truncate(lines[|lines| - 1], LineWidth), 14, height)
  }

  /** One feedback entry: the title line (no break test), the lines of its
      text, and 10 more units. */
  function FeedbackEntry(cur: Cursor, titulo: string, texto: string, height: int): Cursor
  {
    var titled := Cursor(Place(cur.sheet, Text(MarginX, cur.y, titulo + ":")), cur.y - 14);
    var c := Lines(titled, Split(texto, '\n'), height);
    c.(y := c.y - 10)
  }

  /** The outer feedback loop over a prefix of the entries. */
  function Feedback(cur: Cursor, fs: seq<(string, string)>, height: int): Cursor
    decreases |fs|
  {
    if fs == [] then cur
    else
      var last := fs[|fs| - 1];
      FeedbackEntry(Feedback(cur, fs[..|fs| - 1], height), last.0, last.1, height)
  }

  /** Title, score and the ratings heading. */
  function Header(nps: int, height: int): Cursor
  {
    var y := Top(height);
    var s := Place(Blank, Text(MarginX, y, "Pesquisa de Satisfação (NPS)"));
    var s := Place(s, Text(MarginX, y - 40, "NPS informado: " + IntToString(nps)));
    var s := Place(s, Text(MarginX, y - 70, "Avaliações"));
    Cursor(s, y - 90)
  }

  /** The feedback heading 20 units below the ratings, then the entries. */
  function FeedbackSection(rated: Cursor, fs: seq<(string, string)>, height: int): Sheet
  {
    Feedback(Cursor(Place(rated.sheet, Text(MarginX, rated.y - 20, "Feedback")), rated.y - 40), fs, height).sheet
  }

  /** The survey document: header, ratings, feedback, and the final `showPage`. */
  function NpsDocument(nps: int, rs: seq<(string, string)>, fs: seq<(string, string)>, height: int): Document
  {
    NewPage(FeedbackSection(Ratings(Header(nps, height), rs, height), fs, height)).done
  }

  /** What a feedback text becomes: its `\n`-separated lines, each cut to
      its first 110 characters. */
  function TruncatedLines(lines: seq<string>): (r: seq<string>)
    ensures |r| == |lines|
    ensures forall i :: 0 <= i < |r| ==> |r[i]| <= LineWidth && |r[i]| <= |lines[i]| && r[i] == lines[i][..|r[i]|]
    ensures forall i :: 0 <= i < |r| && |lines[i]| <= LineWidth ==> r[i] == lines[i]
  {
    seq(|lines|, i requires 0 <= i < |lines| => Truncate(lines[i], LineWidth))
  }

  /** A line step adds exactly its text item to what has been placed, page
      break or not. */
  lemma LineThenBreakPlaced(cur: Cursor, x: int, text: string, dy: int, height: int)
    ensures Placed(LineThenBreak(cur, x, text, dy, height).sheet) == Placed(cur.sheet) + [Text(x, cur.y, text)]
  {
    var s := Place(cur.sheet, Text(x, cur.y, text));
    PlacedPlace(cur.sheet, Text(x, cur.y, text));
    NewPageKeepsPlaced(s);
  }

  /** Every line of the texts is drawn, in order, cut to 110 characters. */
  lemma {:induction false} LinesTexts(cur: Cursor, lines: seq<string>, height: int)
    ensures Texts(Placed(Lines(cur, lines, height).sheet)) == Texts(Placed(cur.sheet)) + TruncatedLines(lines)
  {
    if lines != [] {
      var prefix := lines[..|lines| - 1];
      LinesTexts(cur, prefix, height);
      var before := Lines(cur, prefix, height);
      var text := Truncate(lines[|lines| - 1], LineWidth);
      LineThenBreakPlaced(before, LineX, text, 14, height);
      TextsAppend(Placed(before.sheet), Text(LineX, before.y, text));
      assert TruncatedLines(lines) == TruncatedLines(prefix) + [text];
    }
  }

  /** The rating lines in dictionary order. */
  function RatingTexts(rs: seq<(string, string)>): (r: seq<string>)
    ensures |r| == |rs|
    ensures forall i :: 0 <= i < |rs| ==> r[i] == RatingLine(rs[i].0, rs[i].1)
  {
    seq(|rs|, i requires 0 <= i < |rs| => RatingLine(rs[i].0, rs[i].1))
  }

  /** Every rating is drawn, in order, as `key: value`. */
  lemma {:induction false} RatingsTexts(cur: Cursor, rs: seq<(string, string)>, height: int)
    ensures Texts(Placed(Ratings(cur, rs, height).sheet)) == Texts(Placed(cur.sheet)) + RatingTexts(rs)
  {
    if rs != [] {
      var prefix := rs[..|rs| - 1];
      RatingsTexts(cur, prefix, height);
      var before := Ratings(cur, prefix, height);
      var last := rs[|rs| - 1];
      var line := RatingLine(last.0, last.1);
      assert Ratings(cur, rs, height) == LineThenBreak(before, MarginX, line, 15, height);
      LineThenBreakPlaced(before, MarginX, line, 15, height);
      TextsAppend(Placed(before.sheet), Text(MarginX, before.y, line));
      assert RatingTexts(rs) == RatingTexts(prefix) + [line];
    }
  }

  /** The strings of one feedback entry: its title with a colon, then
      its truncated lines. */
  function EntryTexts(titulo: string, texto: string): seq<string>
  {
    [titulo + ":"] + TruncatedLines(Split(texto, '\n'))
  }

  /** The strings of the feedback section, entry after entry. */
  function FeedbackTexts(fs: seq<(string, string)>): seq<string>
    decreases |fs|
  {
    if fs == [] then []
    else FeedbackTexts(fs[..|fs| - 1]) + EntryTexts(fs[|fs| - 1].0, fs[|fs| - 1].1)
  }

  lemma TitledLines(cur: Cursor, title: string, lines: seq<string>, height: int)
    ensures Texts(Placed(Lines(Cursor(Place(cur.sheet, Text(MarginX, cur.y, title)), cur.y - 14), lines, height).sheet))
      == Texts(Placed(cur.sheet)) + ([title] + TruncatedLines(lines))
  {
    var titled := Cursor(Place(cur.sheet, Text(MarginX, cur.y, title)), cur.y - 14);
    PlaceText(cur.sheet, MarginX, cur.y, title);
    LinesTexts(titled, lines, height);
    AppendAfterHeading(Texts(Placed(cur.sheet)), title, TruncatedLines(lines), Texts(Placed(titled.sheet)),
                       Texts(Placed(Lines(titled, lines, height).sheet)));
  }

  lemma EntryDrawsAll(cur: Cursor, titulo: string, texto: string, height: int)
    ensures Texts(Placed(FeedbackEntry(cur, titulo, texto, height).sheet)) == Texts(Placed(cur.sheet)) + EntryTexts(titulo, texto)
  {
    var title, lines := titulo + ":", Split(texto, '\n');
    var titled := Cursor(Place(cur.sheet, Text(MarginX, cur.y, title)), cur.y - 14);
    assert FeedbackEntry(cur, titulo, texto, height).sheet == Lines(titled, lines, height).sheet;
    TitledLines(cur, title, lines, height);
    assert EntryTexts(titulo, texto) == [title] + TruncatedLines(lines);
  }

  lemma {:induction false} FeedbackDrawsAll(cur: Cursor, fs: seq<(string, string)>, height: int)
    ensures Texts(Placed(Feedback(cur, fs, height).sheet)) == Texts(Placed(cur.sheet)) + FeedbackTexts(fs)
  {
    if fs != [] {
      var prefix := fs[..|fs| - 1];
      var last := fs[|fs| - 1];
      FeedbackDrawsAll(cur, prefix, height);
      EntryDrawsAll(Feedback(cur, prefix, height), last.0, last.1, height);
    }
  }

  lemma HeaderTexts(nps: int, height: int)
    ensures Texts(Placed(Header(nps, height).sheet)) ==
      ["Pesquisa de Satisfação (NPS)", "NPS informado: " + IntToString(nps), "Avaliações"]
  {
    var y := Top(height);
    var items := [Text(MarginX, y, "Pesquisa de Satisfação (NPS)"),
                  Text(MarginX, y - 40, "NPS informado: " + IntToString(nps)),
                  Text(MarginX, y - 70, "Avaliações")];
    assert Placed(Header(nps, height).sheet) == items;
    assert items[..2] == items[..1] + [items[1]];
    assert items == items[..2] + [items[2]];
    TextsAppend(items[..2], items[2]);
    TextsAppend(items[..1], items[1]);
    TextsAppend([], items[0]);
  }

  /** A heading item between what was drawn before and what follows. */
  lemma AppendAfterHeading<T>(before: seq<T>, heading: T, rest: seq<T>, headed: seq<T>, all: seq<T>)
    requires headed == before + [heading]
    requires all == headed + rest
    ensures all == before + ([heading] + rest)
  {
  }

  lemma PlaceText(s: Sheet, x: int, y: int, text: string)
    ensures Texts(Placed(Place(s, Text(x, y, text)))) == Texts(Placed(s)) + [text]
  {
    PlacedPlace(s, Text(x, y, text));
    TextsAppend(Placed(s), Text(x, y, text));
  }

  lemma FeedbackSectionTexts(rated: Cursor, fs: seq<(string, string)>, height: int)
    ensures Texts(Placed(FeedbackSection(rated, fs, height))) == Texts(Placed(rated.sheet)) + (["Feedback"] + FeedbackTexts(fs))
  {
    var headed := Cursor(Place(rated.sheet, Text(MarginX, rated.y - 20, "Feedback")), rated.y - 40);
    var sec := FeedbackSection(rated, fs, height);
    assert sec == Feedback(headed, fs, height).sheet;
    PlaceText(rated.sheet, MarginX, rated.y - 20, "Feedback");
    FeedbackDrawsAll(headed, fs, height);
    AppendAfterHeading(Texts(Placed(rated.sheet)), "Feedback", FeedbackTexts(fs), Texts(Placed(headed.sheet)), Texts(Placed(sec)));
  }

  /** Nothing is lost at a page break: the survey document holds the
      title, the score, every rating, the feedback heading and every
      feedback title and line, in this order. */
  lemma NpsTexts(nps: int, rs: seq<(string, string)>, fs: seq<(string, string)>, height: int)
    ensures Texts(Concat(NpsDocument(nps, rs, fs, height))) ==
      ["Pesquisa de Satisfação (NPS)", "NPS informado: " + IntToString(nps), "Avaliações"]
      + RatingTexts(rs) + (["Feedback"] + FeedbackTexts(fs))
  {
    var header := Header(nps, height);
    HeaderTexts(nps, height);
    RatingsTexts(header, rs, height);
    var rated := Ratings(header, rs, height);
    FeedbackSectionTexts(rated, fs, height);
    var last := FeedbackSection(rated, fs, height);
    NewPageKeepsPlaced(last);
    assert Placed(NewPage(last)) == Concat(NewPage(last).done);
  }

  /** With a top above the threshold, the break test keeps the cursor at
      80 or above after every rating line, so no rating line after the first
      is drawn below 80. */
  lemma {:induction false} RatingsStayAbove(cur: Cursor, rs: seq<(string, string)>, height: int)
    requires Top(height) >= Bottom
    requires cur.y >= Bottom || rs != []
    ensures Ratings(cur, rs, height).y >= Bottom
  {
    if |rs| > 1 {
      RatingsStayAbove(cur, rs[..|rs| - 1], height);
    }
  }

  /** The same for the lines of a feedback text. */
  lemma {:induction false} LinesStayAbove(cur: Cursor, lines: seq<string>, height: int)
    requires Top(height) >= Bottom
    requires cur.y >= Bottom || lines != []
    ensures Lines(cur, lines, height).y >= Bottom
  {
    if |lines| > 1 {
      LinesStayAbove(cur, lines[..|lines| - 1], height);
    }
  }

  /** The ratings loop of `finalizar_nps`. */
  method DrawRatings(c: Canvas, y0: int, rs: seq<(string, string)>, height: int) returns (y: int)
    modifies c
    ensures Cursor(c.State(), y) == Ratings(Cursor(old(c.State()), y0), rs, height)
  {
    ghost var start := Cursor(c.State(), y0);
    y := y0;
    var i := 0;
    while i < |rs|
      invariant 0 <= i <= |rs|
      invariant Cursor(c.State(), y) == Ratings(start, rs[..i], height)
    {
      var next := rs[..i + 1];
      assert next[..|next| - 1] == rs[..i];
      c.DrawString(MarginX, y, RatingLine(rs[i].0, rs[i].1));
      y := y - 15;
      if y < Bottom {
        c.ShowPage();
        y := Top(height);
      }
      i := i + 1;
    }
    assert rs[..i] == rs;
  }

  /** The loop over the lines of one feedback text. */
  method DrawTextLines(c: Canvas, y0: int, lines: seq<string>, height: int) returns (y: int)
    modifies c
    ensures Cursor(c.State(), y) == Lines(Cursor(old(c.State()), y0), lines, height)
  {
    ghost var start := Cursor(c.State(), y0);
    y := y0;
    var i := 0;
    while i < |lines|
      invariant 0 <= i <= |lines|
      invariant Cursor(c.State(), y) == Lines(start, lines[..i], height)
    {
      var next := lines[..i + 1];
      assert next[..|next| - 1] == lines[..i];
      c.DrawString(LineX, y, Truncate(lines[i], LineWidth));
      y := y - 14;
      if y < Bottom {
        c.ShowPage();
        y := Top(height);
      }
      i := i + 1;
    }
    assert lines[..i] == lines;
  }

  /** The feedback loop of `finalizar_nps`. */
  method DrawFeedback(c: Canvas, y0: int, fs: seq<(string, string)>, height: int) returns (y: int)
    modifies c
    ensures Cursor(c.State(), y) == Feedback(Cursor(old(c.State()), y0), fs, height)
  {
    ghost var start := Cursor(c.State(), y0);
    y := y0;
    var i := 0;
    while i < |fs|
      invariant 0 <= i <= |fs|
      invariant Cursor(c.State(), y) == Feedback(start, fs[..i], height)
    {
      var next := fs[..i + 1];
      assert next[..|next| - 1] == fs[..i];
      c.DrawString(MarginX, y, fs[i].0 + ":");
      y := y - 14;
      y := DrawTextLines(c, y, Split(fs[i].1, '\n'), height);
      y := y - 10;
      i := i + 1;
    }
    assert fs[..i] == fs;
  }

  /** Renders the survey document on a fresh canvas. */
  method RenderNps(nps: int, rs: seq<(string, string)>, fs: seq<(string, string)>, height: int) returns (doc: Document)
    ensures doc == NpsDocument(nps, rs, fs, height)
  {
    var c := new Canvas();
    var y := Top(height);
    c.DrawString(MarginX, y, "Pesquisa de Satisfação (NPS)");
    y := y - 40;
    c.DrawString(MarginX, y, "NPS informado: " + IntToString(nps));
    y := y - 30;
    c.DrawString(MarginX, y, "Avaliações");
    y := y - 20;
    assert Cursor(c.State(), y) == Header(nps, height);
    y := DrawRatings(c, y, rs, height);
    y := y - 20;
    c.DrawString(MarginX, y, "Feedback");
    y := y - 20;
    y := DrawFeedback(c, y, fs, height);
    c.ShowPage();
    doc := c.Save();
  }

  // ----- the handler -----

  const MissingIdMessage: string := "processo_id ausente"
  const TermoMissingMessage: string := "Termo não encontrado"
  const RessalvasMissingMessage: string := "Ressalvas não encontradas"
  const EmptyUrlMessage: string := "Falha no upload do PDF final"
  const FinishedStatus: string := "finalizado"

  /** `os.path.join(base_dir, "final")`. */
  function FinalDir(processoId: string): string
  {
    Stores.Join(BaseDir(processoId), "final")
  }

  function NpsFile(processoId: string): string
  {
    Stores.Join(FinalDir(processoId), "nps.pdf")
  }

  function FinalFile(processoId: string): string
  {
    Stores.Join(FinalDir(processoId), "entrega_final.pdf")
  }

  /** The storage folder of the merged file, `f"{processo_id}/entrega_final.pdf"`. */
  function RemoteFolder(processoId: string): string
  {
    processoId + "/entrega_final.pdf"
  }

  lemma OutputEndings(id: string)
    ensures EndsWith(FinalDir(id), "final")
    ensures EndsWith(NpsFile(id), "nps.pdf")
    ensures EndsWith(FinalFile(id), "entrega_final.pdf")
  {
    JoinSuffix(BaseDir(id), "final");
    JoinSuffix(FinalDir(id), "nps.pdf");
    JoinSuffix(FinalDir(id), "entrega_final.pdf");
  }

  lemma InputEndings(id: string)
    ensures EndsWith(TermoFile(id), "termo.pdf")
    ensures EndsWith(RessalvasFile(id), "ressalvas.pdf")
  {
    JoinSuffix(Stores.Join(BaseDir(id), "termo"), "termo.pdf");
    JoinSuffix(Stores.Join(BaseDir(id), "ressalvas"), "ressalvas.pdf");
  }

  /** The five local paths of one process, as `finalizar_nps` computes them. */
  datatype Paths = Paths(termo: string, ressalvas: string, dir: string, nps: string, final: string)

  function PathsOf(id: string): Paths
  {
    Paths(TermoFile(id), RessalvasFile(id), FinalDir(id), NpsFile(id), FinalFile(id))
  }

  /** The five paths are pairwise different. */
  predicate Distinct(p: Paths)
  {
    && p.termo != p.dir && p.termo != p.nps && p.termo != p.final
    && p.ressalvas != p.dir && p.ressalvas != p.nps && p.ressalvas != p.final
    && p.dir != p.nps && p.dir != p.final && p.nps != p.final
  }

  /** Paths with these five endings are pairwise different. */
  lemma DistinctByEndings(p: Paths)
    requires EndsWith(p.termo, "termo.pdf") && EndsWith(p.ressalvas, "ressalvas.pdf")
    requires EndsWith(p.dir, "final") && EndsWith(p.nps, "nps.pdf") && EndsWith(p.final, "entrega_final.pdf")
    ensures Distinct(p)
  {
    EndingsDiffer(p.termo, p.dir, "termo.pdf", "final", 1);
    EndingsDiffer(p.termo, p.nps, "termo.pdf", "nps.pdf", 5);
    EndingsDiffer(p.termo, p.final, "termo.pdf", "entrega_final.pdf", 5);
    EndingsDiffer(p.ressalvas, p.dir, "ressalvas.pdf", "final", 1);
    EndingsDiffer(p.ressalvas, p.nps, "ressalvas.pdf", "nps.pdf", 6);
    EndingsDiffer(p.ressalvas, p.final, "ressalvas.pdf", "entrega_final.pdf", 5);
    EndingsDiffer(p.dir, p.nps, "final", "nps.pdf", 1);
    EndingsDiffer(p.dir, p.final, "final", "entrega_final.pdf", 1);
    EndingsDiffer(p.nps, p.final, "nps.pdf", "entrega_final.pdf", 5);
  }

  /** The five paths the handler touches are pairwise different, whatever the process id. */
  lemma PathsDistinct(id: string)
    ensures Distinct(PathsOf(id))
  {
    OutputEndings(id);
    InputEndings(id);
    DistinctByEndings(PathsOf(id));
  }

  /** The file-system steps after the existence checks, step by step:
      `makedirs` of the final directory, `save()` of the survey file, the
      three `append` reads and the write of the merged file. Every failure is
      an exception no handler code catches. */
  function Assembled(p: Paths, nodes: map<string, Node>, npsDoc: Document): Staged<Document>
  {
    if p.dir in nodes && !nodes[p.dir].Directory? then Staged(Err(InternalServerError), nodes)
    else
      var withDir := WithDirectory(nodes, p.dir);
      if p.nps in withDir && withDir[p.nps].Directory? then Staged(Err(InternalServerError), withDir)
      else
        var written := withDir[p.nps := PdfFile(npsDoc)];
        if !(p.termo in written && written[p.termo].PdfFile?) then Staged(Err(InternalServerError), written)
        else if !(p.ressalvas in written && written[p.ressalvas].PdfFile?) then Staged(Err(InternalServerError), written)
        else
          var merged := Merge.Merged(written[p.termo].doc, written[p.ressalvas].doc, npsDoc);
          if p.final in written && written[p.final].Directory? then Staged(Err(InternalServerError), written)
          else Staged(Ok(merged), written[p.final := PdfFile(merged)])
  }

  /** When the steps succeed: exactly when the final directory is free or a
      directory, neither output path is a directory and both inputs are PDF
      files; the merged file then holds the term pages, the exceptions report
      pages and the survey pages, the survey file is left beside it, and no
      other path changes. */
  lemma AssembledOutcome(p: Paths, nodes: map<string, Node>, npsDoc: Document)
    requires Distinct(p)
    ensures var a := Assembled(p, nodes, npsDoc);
      a.outcome.Ok? <==>
        && (p.dir !in nodes || nodes[p.dir].Directory?)
        && (p.nps !in nodes || !nodes[p.nps].Directory?)
        && p.termo in nodes && nodes[p.termo].PdfFile?
        && p.ressalvas in nodes && nodes[p.ressalvas].PdfFile?
        && (p.final !in nodes || !nodes[p.final].Directory?)
    ensures var a := Assembled(p, nodes, npsDoc);
      a.outcome.Ok? ==>
        && a.outcome.value == Merge.Merged(nodes[p.termo].doc, nodes[p.ressalvas].doc, npsDoc)
        && p.final in a.nodes && a.nodes[p.final] == PdfFile(a.outcome.value)
        && p.nps in a.nodes && a.nodes[p.nps] == PdfFile(npsDoc)
        && p.dir in a.nodes && a.nodes[p.dir].Directory?
    ensures var a := Assembled(p, nodes, npsDoc);
      a.outcome.Err? ==> a.outcome.error == InternalServerError
    ensures var a := Assembled(p, nodes, npsDoc);
      forall q :: q != p.dir && q != p.nps && q != p.final ==>
        (q in a.nodes <==> q in nodes) && (q in nodes ==> a.nodes[q] == nodes[q])
  {
  }

  /** The file-system steps of `finalizar_nps`. */
  method Assemble(fs: FileSystem, p: Paths, npsDoc: Document) returns (r: Result<Document>)
    modifies fs
    ensures Staged(r, fs.nodes) == Assembled(p, old(fs.nodes), npsDoc)
  {
    var made := fs.MakeDirs(p.dir);
    if !made {
      return Err(InternalServerError);
    }
    var saved := fs.WritePdf(p.nps, npsDoc);
    if !saved {
      return Err(InternalServerError);
    }
    var termo := fs.ReadPdf(p.termo);
    if termo.None? {
      return Err(InternalServerError);
    }
    var ressalvas := fs.ReadPdf(p.ressalvas);
    if ressalvas.None? {
      return Err(InternalServerError);
    }
    var survey := fs.ReadPdf(p.nps);
    var merged := Merge.AppendThree(termo.value, ressalvas.value, survey.value);
    var written := fs.WritePdf(p.final, merged);
    if !written {
      return Err(InternalServerError);
    }
    r := Ok(merged);
  }

  /** The row update: status, final URL and finishing date are set, and
      every other column is kept. */
  function Finished(p: Processo, url: string, day: string): (r: Processo)
    ensures r.status == FinishedStatus && r.pdfFinal == Some(url) && r.finalizadoEm == Some(day)
    ensures r.(status := p.status, pdfFinal := p.pdfFinal, finalizadoEm := p.finalizadoEm) == p
  {
    p.(status := FinishedStatus, pdfFinal := Some(url), finalizadoEm := Some(day))
  }

  /** Upload of the merged file and the row update. `upload_pdf` is handed
      the local path, so what it stores is `pathDecode` of that path. */
  method Publish(ledger: Ledger, store: BlobStore, id: string, fileId: string,
                 pathDecode: string -> Option<Bytes>, today: Date) returns (r: Result<string>)
    modifies ledger, store
    ensures store.reachable == old(store.reachable)
    ensures var path := Upload.StorePath(RemoteFolder(id), fileId);
      r.Ok? <==>
        && pathDecode(Codec.StripHeader(FinalFile(id))).Some? && old(store.reachable)
        && path !in old(store.objects) && store.publicUrl(path) != ""
    ensures var path := Upload.StorePath(RemoteFolder(id), fileId);
      !(pathDecode(Codec.StripHeader(FinalFile(id))).Some? && old(store.reachable) && path !in old(store.objects)) ==>
        r == Err(InternalServerError) && store.objects == old(store.objects)
    ensures var path := Upload.StorePath(RemoteFolder(id), fileId);
      pathDecode(Codec.StripHeader(FinalFile(id))).Some? && old(store.reachable) && path !in old(store.objects)
      && store.publicUrl(path) == "" ==>
        && r == Err(HttpError(500, EmptyUrlMessage))
        && store.objects == old(store.objects)[path := pathDecode(Codec.StripHeader(FinalFile(id))).value]
    ensures r.Err? ==> ledger.processos == old(ledger.processos)
    ensures var path := Upload.StorePath(RemoteFolder(id), fileId);
      r.Ok? ==>
        && r.value == store.publicUrl(path)
        && store.objects == old(store.objects)[path := pathDecode(Codec.StripHeader(FinalFile(id))).value]
        && |ledger.processos| == |old(ledger.processos)|
        && forall k :: 0 <= k < |ledger.processos| ==>
             ledger.processos[k] == if old(ledger.processos)[k].processoId == id
                                    then Finished(old(ledger.processos)[k], r.value, IsoDate(today))
                                    else old(ledger.processos)[k]
    ensures ledger.ressalvasItens == old(ledger.ressalvasItens)
  {
    var up := Upload.UploadPdf(store, FinalFile(id), RemoteFolder(id), fileId, pathDecode);
    if up.UploadFailed? {
      return Err(InternalServerError);
    }
    if up.url == "" {
      return Err(HttpError(500, EmptyUrlMessage));
    }
    var url := up.url;
    var day := IsoDate(today);
    ledger.UpdateProcessos((p: Processo) => p.processoId == id, (p: Processo) => Finished(p, url, day));
    r := Ok(url);
  }

  /** The steps of `finalizar_nps` after the existence checks, once the
      survey document `npsDoc` is drawn: the file steps, then the upload and
      the row update. */
  method FinishNps(ledger: Ledger, store: BlobStore, fs: FileSystem, id: string, npsDoc: Document,
                   fileId: string, pathDecode: string -> Option<Bytes>, today: Date) returns (r: Result<string>)
    modifies ledger, store, fs
    ensures store.reachable == old(store.reachable)
    ensures ledger.ressalvasItens == old(ledger.ressalvasItens)
    ensures var a := Assembled(PathsOf(id), old(fs.nodes), npsDoc);
      && fs.nodes == a.nodes
      && (a.outcome.Err? ==> r == Err(a.outcome.error) && store.objects == old(store.objects))
    ensures r.Err? ==> ledger.processos == old(ledger.processos)
    ensures var path := Upload.StorePath(RemoteFolder(id), fileId);
      Assembled(PathsOf(id), old(fs.nodes), npsDoc).outcome.Ok?
      && !(pathDecode(Codec.StripHeader(FinalFile(id))).Some? && old(store.reachable) && path !in old(store.objects)) ==>
        r == Err(InternalServerError) && store.objects == old(store.objects)
    ensures var path := Upload.StorePath(RemoteFolder(id), fileId);
      Assembled(PathsOf(id), old(fs.nodes), npsDoc).outcome.Ok?
      && pathDecode(Codec.StripHeader(FinalFile(id))).Some? && old(store.reachable) && path !in old(store.objects)
      && store.publicUrl(path) == "" ==>
        && r == Err(HttpError(500, EmptyUrlMessage))
        && store.objects == old(store.objects)[path := pathDecode(Codec.StripHeader(FinalFile(id))).value]
    ensures var path := Upload.StorePath(RemoteFolder(id), fileId);
      r.Ok? <==>
        && Assembled(PathsOf(id), old(fs.nodes), npsDoc).outcome.Ok?
        && pathDecode(Codec.StripHeader(FinalFile(id))).Some? && old(store.reachable)
        && path !in old(store.objects) && store.publicUrl(path) != ""
    ensures var path := Upload.StorePath(RemoteFolder(id), fileId);
      r.Ok? ==>
        && r.value == store.publicUrl(path)
        && store.objects == old(store.objects)[path := pathDecode(Codec.StripHeader(FinalFile(id))).value]
        && |ledger.processos| == |old(ledger.processos)|
        && forall k :: 0 <= k < |ledger.processos| ==>
             ledger.processos[k] == if old(ledger.processos)[k].processoId == id
                                    then Finished(old(ledger.processos)[k], r.value, IsoDate(today))
                                    else old(ledger.processos)[k]
  {
    var merged := Assemble(fs, PathsOf(id), npsDoc);
    if merged.Err? {
      return Err(merged.error);
    }
    r := Publish(ledger, store, id, fileId, pathDecode, today);
  }

  /** `finalizar_nps`. The page height, the fresh upload name, the decoder
      `upload_pdf` applies to the path and today's date are parameters. */
  method FinalizarNps(ledger: Ledger, store: BlobStore, fs: FileSystem, req: NpsRequest,
                      height: int, fileId: string, pathDecode: string -> Option<Bytes>, today: Date)
    returns (r: Result<string>)
    modifies ledger, store, fs
    ensures store.reachable == old(store.reachable)
    ensures ledger.ressalvasItens == old(ledger.ressalvasItens)
    ensures var id := Strip(req.processoId);
      id == [] ==> r == Err(HttpError(400, MissingIdMessage))
    ensures var id := Strip(req.processoId);
      id != [] && TermoFile(id) !in old(fs.nodes) ==> r == Err(HttpError(404, TermoMissingMessage))
    ensures var id := Strip(req.processoId);
      id != [] && TermoFile(id) in old(fs.nodes) && RessalvasFile(id) !in old(fs.nodes) ==>
        r == Err(HttpError(404, RessalvasMissingMessage))
    ensures var id := Strip(req.processoId);
      (id == [] || TermoFile(id) !in old(fs.nodes) || RessalvasFile(id) !in old(fs.nodes)) ==>
        fs.nodes == old(fs.nodes) && store.objects == old(store.objects)
    ensures var id := Strip(req.processoId);
      var a := Assembled(PathsOf(id), old(fs.nodes), NpsDocument(req.nps, req.avaliacoes, req.feedback, height));
      id != [] && TermoFile(id) in old(fs.nodes) && RessalvasFile(id) in old(fs.nodes) ==>
        fs.nodes == a.nodes && (a.outcome.Err? ==> r == Err(a.outcome.error) && store.objects == old(store.objects))
    ensures r.Err? ==> ledger.processos == old(ledger.processos)
    ensures var id := Strip(req.processoId);
      var a := Assembled(PathsOf(id), old(fs.nodes), NpsDocument(req.nps, req.avaliacoes, req.feedback, height));
      var path := Upload.StorePath(RemoteFolder(id), fileId);
      var passed := id != [] && TermoFile(id) in old(fs.nodes) && RessalvasFile(id) in old(fs.nodes) && a.outcome.Ok?;
      passed && !(pathDecode(Codec.StripHeader(FinalFile(id))).Some? && old(store.reachable) && path !in old(store.objects)) ==>
        r == Err(InternalServerError) && store.objects == old(store.objects)
    ensures var id := Strip(req.processoId);
      var a := Assembled(PathsOf(id), old(fs.nodes), NpsDocument(req.nps, req.avaliacoes, req.feedback, height));
      var path := Upload.StorePath(RemoteFolder(id), fileId);
      var passed := id != [] && TermoFile(id) in old(fs.nodes) && RessalvasFile(id) in old(fs.nodes) && a.outcome.Ok?;
      passed && pathDecode(Codec.StripHeader(FinalFile(id))).Some? && old(store.reachable) && path !in old(store.objects)
      && store.publicUrl(path) == "" ==>
        && r == Err(HttpError(500, EmptyUrlMessage))
        && store.objects == old(store.objects)[path := pathDecode(Codec.StripHeader(FinalFile(id))).value]
    ensures var id := Strip(req.processoId);
      var a := Assembled(PathsOf(id), old(fs.nodes), NpsDocument(req.nps, req.avaliacoes, req.feedback, height));
      var path := Upload.StorePath(RemoteFolder(id), fileId);
      r.Ok? <==>
        && id != [] && TermoFile(id) in old(fs.nodes) && RessalvasFile(id) in old(fs.nodes)
        && a.outcome.Ok?
        && pathDecode(Codec.StripHeader(FinalFile(id))).Some? && old(store.reachable)
        && path !in old(store.objects) && store.publicUrl(path) != ""
    ensures var id := Strip(req.processoId);
      var path := Upload.StorePath(RemoteFolder(id), fileId);
      r.Ok? ==>
        && r.value == store.publicUrl(path)
        && store.objects == old(store.objects)[path := pathDecode(Codec.StripHeader(FinalFile(id))).value]
        && |ledger.processos| == |old(ledger.processos)|
        && forall k :: 0 <= k < |ledger.processos| ==>
             ledger.processos[k] == if old(ledger.processos)[k].processoId == id
                                    then Finished(old(ledger.processos)[k], r.value, IsoDate(today))
                                    else old(ledger.processos)[k]
  {
    var id := Strip(req.processoId);
    if id == [] {
      return Err(HttpError(400, MissingIdMessage));
    }
    var termoExists := fs.Exists(TermoFile(id));
    if !termoExists {
      return Err(HttpError(404, TermoMissingMessage));
    }
    var ressalvasExists := fs.Exists(RessalvasFile(id));
    if !ressalvasExists {
      return Err(HttpError(404, RessalvasMissingMessage));
    }
    var npsDoc := RenderNps(req.nps, req.avaliacoes, req.feedback, height);
    r := FinishNps(ledger, store, fs, id, npsDoc, fileId, pathDecode, today);
  }
}
