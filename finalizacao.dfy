/** app/routers/finalizacao.py: `gerar_pdf_final` checks that the term,
    the exceptions report and the survey file `nps.json` exist, renders the
    survey on a single page, concatenates the pages of the three documents,
    uploads the result, records it on the process and removes the temporary
    survey file. The page height is the parameter `height`. */
module Finalizacao {
  import opened Common
  import opened Text
  import opened Layout
  import opened Stores
  import Codec
  import Merge
  import Upload

  const MarginX: int := 40
  /** Feedback texts are cut to this many characters. */
  const TextWidth: nat := 300

  const TermoMissingMessage: string := "Termo não encontrado"
  const RessalvasMissingMessage: string := "Ressalvas não encontradas"
  const NpsMissingMessage: string := "NPS não encontrado"
  const FinishedStatus: string := "finalizado"
  const ReportedFile: string := "entrega_final.pdf"

  /** The response body: the file name reported and the public URL. */
  datatype FinalResponse = FinalResponse(arquivo: string, url: string)

  /** The rating lines, 20 units apart from `y0` down, keys in upper case. */
  function RatingItems(y0: int, rs: seq<(string, string)>): (r: seq<Item>)
    ensures |r| == |rs|
    ensures forall i :: 0 <= i < |rs| ==>
      r[i] == Text(MarginX, y0 - 20 * i, Upper(rs[i].0) + ": " + rs[i].1)
  {
    seq(|rs|, i requires 0 <= i < |rs| => Text(MarginX, y0 - 20 * i, Upper(rs[i].0) + ": " + rs[i].1))
  }

  /** The two lines of one feedback entry: the capitalised title, and 18
      units below it the text cut to 300 characters. */
  function EntryItems(y: int, titulo: string, texto: string): (r: seq<Item>)
    ensures |r| == 2 && r[0] == Text(MarginX, y, Capitalize(titulo)) && r[1].Text?
    ensures r[1].y == y - 18 && |r[1].text| <= TextWidth && |r[1].text| <= |texto| && r[1].text == texto[..|r[1].text|]
    ensures |texto| <= TextWidth ==> r[1].text == texto
  {
    [Text(MarginX, y, Capitalize(titulo)), Text(MarginX, y - 18, Truncate(texto, TextWidth))]
  }

  /** The feedback entries, 48 units apart from `y0` down. */
  function FeedbackItems(y0: int, fs: seq<(string, string)>): (r: seq<Item>)
    ensures |r| == 2 * |fs|
    decreases |fs|
  {
    if fs == [] then []
    else FeedbackItems(y0, fs[..|fs| - 1]) + EntryItems(y0 - 48 * (|fs| - 1), fs[|fs| - 1].0, fs[|fs| - 1].1)
  }

  /** Entry `i` occupies items `2i` and `2i + 1`. */
  lemma {:induction false} FeedbackItemsAt(y0: int, fs: seq<(string, string)>, i: nat)
    requires i < |fs|
    ensures FeedbackItems(y0, fs)[2 * i..2 * i + 2] == EntryItems(y0 - 48 * i, fs[i].0, fs[i].1)
  {
    var prefix := fs[..|fs| - 1];
    if i < |fs| - 1 {
      FeedbackItemsAt(y0, prefix, i);
      assert FeedbackItems(y0, fs)[..2 * |prefix|] == FeedbackItems(y0, prefix);
    }
  }

  /** The page: title, final score, ratings, a 20-unit gap, feedback. */
  function SurveyPage(record: NpsRecord, height: int): Page
  {
    var y := height - 40;
    [Text(MarginX, y, "Pesquisa NPS"), Text(MarginX, y - 40, "NPS Final: " + record.nps)]
      + RatingItems(y - 70, record.avaliacoes)
      + FeedbackItems(y - 70 - 20 * |record.avaliacoes| - 20, record.feedback)
  }

  /** Every rating and every feedback entry is on the page, in order, each
      at its own offset. */
  lemma SurveyPageContents(record: NpsRecord, height: int)
    ensures var page := SurveyPage(record, height);
      var n := |record.avaliacoes|;
      && |page| == 2 + n + 2 * |record.feedback|
      && page[2..2 + n] == RatingItems(height - 110, record.avaliacoes)
      && page[2 + n..] == FeedbackItems(height - 130 - 20 * n, record.feedback)
  {
    var page := SurveyPage(record, height);
    var head := [Text(MarginX, height - 40, "Pesquisa NPS"), Text(MarginX, height - 80, "NPS Final: " + record.nps)];
    var ratings := RatingItems(height - 110, record.avaliacoes);
    var feedback := FeedbackItems(height - 130 - 20 * |record.avaliacoes|, record.feedback);
    assert page == head + ratings + feedback;
    assert page[2..] == ratings + feedback;
  }

  /** The survey document: one page, since there is a single `showPage` and no break. */
  function SurveyDocument(record: NpsRecord, height: int): Document
  {
    [SurveyPage(record, height)]
  }

  /** The ratings loop of `gerar_pdf_final`. */
  method DrawRatings(c: Canvas, y0: int, rs: seq<(string, string)>) returns (y: int)
    modifies c
    ensures y == y0 - 20 * |rs|
    ensures c.done == old(c.done) && c.page == old(c.page) + RatingItems(y0, rs)
  {
    y := y0;
    var i := 0;
    while i < |rs|
      invariant 0 <= i <= |rs|
      invariant y == y0 - 20 * i
      invariant c.done == old(c.done) && c.page == old(c.page) + RatingItems(y0, rs[..i])
    {
      var line := Text(MarginX, y, Upper(rs[i].0) + ": " + rs[i].1);
      assert RatingItems(y0, rs[..i + 1]) == RatingItems(y0, rs[..i]) + [line];
      c.DrawString(MarginX, y, Upper(rs[i].0) + ": " + rs[i].1);
      y := y - 20;
      i := i + 1;
    }
    assert rs[..i] == rs;
  }

  /** The feedback loop of `gerar_pdf_final`. */
  method DrawFeedback(c: Canvas, y0: int, fs: seq<(string, string)>)
    modifies c
    ensures c.done == old(c.done) && c.page == old(c.page) + FeedbackItems(y0, fs)
  {
    var y := y0;
    var j := 0;
    while j < |fs|
      invariant 0 <= j <= |fs|
      invariant y == y0 - 48 * j
      invariant c.done == old(c.done) && c.page == old(c.page) + FeedbackItems(y0, fs[..j])
    {
      var next := fs[..j + 1];
      assert next[..|next| - 1] == fs[..j];
      c.DrawString(MarginX, y, Capitalize(fs[j].0));
      y := y - 18;
      c.DrawString(MarginX, y, Truncate(fs[j].1, TextWidth));
      y := y - 30;
      j := j + 1;
    }
    assert fs[..j] == fs;
  }

  /** The drawing of `gerar_pdf_final` on a fresh canvas. */
  method RenderSurvey(record: NpsRecord, height: int) returns (doc: Document)
    ensures |doc| == 1
    ensures doc == SurveyDocument(record, height)
  {
    var c := new Canvas();
    var y := height - 40;
    c.DrawString(MarginX, y, "Pesquisa NPS");
    y := y - 40;
    c.DrawString(MarginX, y, "NPS Final: " + record.nps);
    y := y - 30;
    ghost var head := c.page;
    assert head == [Text(MarginX, height - 40, "Pesquisa NPS"), Text(MarginX, height - 80, "NPS Final: " + record.nps)];
    y := DrawRatings(c, y, record.avaliacoes);
    y := y - 20;
    DrawFeedback(c, y, record.feedback);
    assert c.page == SurveyPage(record, height);
    c.ShowPage();
    doc := c.Save();
  }

  // ----- paths -----

  function NpsJsonFile(processoId: string): string
  {
    Stores.Join(Stores.Join(BaseDir(processoId), "nps"), "nps.json")
  }

  function OutDir(processoId: string): string
  {
    Stores.Join(BaseDir(processoId), "nps-final")
  }

  function TempFile(processoId: string): string
  {
    Stores.Join(OutDir(processoId), "nps_temp.pdf")
  }

  function OutFile(processoId: string): string
  {
    Stores.Join(OutDir(processoId), "entrega_final.pdf")
  }

  /** The storage folder of the merged file, `f"{processo_id}/final.pdf"`. */
  function RemoteFolder(processoId: string): string
  {
    processoId + "/final.pdf"
  }

  lemma InputEndings(id: string)
    ensures EndsWith(TermoFile(id), "termo.pdf")
    ensures EndsWith(RessalvasFile(id), "ressalvas.pdf")
    ensures EndsWith(NpsJsonFile(id), "nps.json")
  {
    JoinSuffix(Stores.Join(BaseDir(id), "termo"), "termo.pdf");
    JoinSuffix(Stores.Join(BaseDir(id), "ressalvas"), "ressalvas.pdf");
    JoinSuffix(Stores.Join(BaseDir(id), "nps"), "nps.json");
  }

  lemma OutputEndings(id: string)
    ensures EndsWith(OutDir(id), "nps-final")
    ensures EndsWith(TempFile(id), "nps_temp.pdf")
    ensures EndsWith(OutFile(id), "entrega_final.pdf")
  {
    JoinSuffix(BaseDir(id), "nps-final");
    JoinSuffix(OutDir(id), "nps_temp.pdf");
    JoinSuffix(OutDir(id), "entrega_final.pdf");
  }

  /** Paths with these six endings are pairwise different where it matters. */
  lemma DistinctByEndings(termo: string, ressalvas: string, json: string, dir: string, temp: string, out: string)
    requires EndsWith(termo, "termo.pdf") && EndsWith(ressalvas, "ressalvas.pdf") && EndsWith(json, "nps.json")
    requires EndsWith(dir, "nps-final") && EndsWith(temp, "nps_temp.pdf") && EndsWith(out, "entrega_final.pdf")
    ensures termo != dir && termo != temp && termo != out
    ensures ressalvas != dir && ressalvas != temp && ressalvas != out
    ensures json != dir && json != temp && json != out
    ensures dir != temp && dir != out && temp != out
  {
    EndingsDiffer(termo, dir, "termo.pdf", "nps-final", 1);
    EndingsDiffer(termo, temp, "termo.pdf", "nps_temp.pdf", 5);
    EndingsDiffer(termo, out, "termo.pdf", "entrega_final.pdf", 5);
    EndingsDiffer(ressalvas, dir, "ressalvas.pdf", "nps-final", 1);
    EndingsDiffer(ressalvas, temp, "ressalvas.pdf", "nps_temp.pdf", 5);
    EndingsDiffer(ressalvas, out, "ressalvas.pdf", "entrega_final.pdf", 5);
    EndingsDiffer(json, dir, "nps.json", "nps-final", 1);
    EndingsDiffer(json, temp, "nps.json", "nps_temp.pdf", 1);
    EndingsDiffer(json, out, "nps.json", "entrega_final.pdf", 1);
    EndingsDiffer(dir, temp, "nps-final", "nps_temp.pdf", 1);
    EndingsDiffer(dir, out, "nps-final", "entrega_final.pdf", 1);
    EndingsDiffer(temp, out, "nps_temp.pdf", "entrega_final.pdf", 5);
  }

  /** No input path is an output path, and the three output paths differ,
      whatever the process id. */
  lemma PathsDistinct(id: string)
    ensures TermoFile(id) != OutDir(id) && TermoFile(id) != TempFile(id) && TermoFile(id) != OutFile(id)
    ensures RessalvasFile(id) != OutDir(id) && RessalvasFile(id) != TempFile(id) && RessalvasFile(id) != OutFile(id)
    ensures NpsJsonFile(id) != OutDir(id) && NpsJsonFile(id) != TempFile(id) && NpsJsonFile(id) != OutFile(id)
    ensures OutDir(id) != TempFile(id) && OutDir(id) != OutFile(id) && TempFile(id) != OutFile(id)
    ensures Distinct(PathsOf(id))
  {
    InputEndings(id);
    OutputEndings(id);
    DistinctByEndings(TermoFile(id), RessalvasFile(id), NpsJsonFile(id), OutDir(id), TempFile(id), OutFile(id));
  }

  /** The six local paths of one process, as `gerar_pdf_final` computes them. */
  datatype Paths = Paths(termo: string, ressalvas: string, json: string, dir: string, temp: string, out: string)

  function PathsOf(id: string): Paths
  {
    Paths(TermoFile(id), RessalvasFile(id), NpsJsonFile(id), OutDir(id), TempFile(id), OutFile(id))
  }

  /** No input path is an output path and the output paths differ. */
  predicate Distinct(p: Paths)
  {
    && p.termo != p.dir && p.termo != p.temp && p.termo != p.out
    && p.ressalvas != p.dir && p.ressalvas != p.temp && p.ressalvas != p.out
    && p.json != p.dir && p.json != p.temp && p.json != p.out
    && p.dir != p.temp && p.dir != p.out && p.temp != p.out
  }

  // ----- the handler -----

  /** The file-system steps after the existence checks, step by step:
      `makedirs` of the output directory, `json.load` of the survey file,
      `save()` of the temporary survey document, the three page-copy reads
      and the write of the merged file. Every failure is an exception no
      handler code catches. */
  function Assembled(p: Paths, nodes: map<string, Node>, height: int): Staged<Document>
  {
    var dir := p.dir;
    if dir in nodes && !nodes[dir].Directory? then Staged(Err(InternalServerError), nodes)
    else
      var withDir := WithDirectory(nodes, dir);
      if !(p.json in withDir && withDir[p.json].NpsJson?) then Staged(Err(InternalServerError), withDir)
      else
        var survey := SurveyDocument(withDir[p.json].record, height);
        if p.temp in withDir && withDir[p.temp].Directory? then Staged(Err(InternalServerError), withDir)
        else
          var written := withDir[p.temp := PdfFile(survey)];
          if !(p.termo in written && written[p.termo].PdfFile?) then Staged(Err(InternalServerError), written)
          else if !(p.ressalvas in written && written[p.ressalvas].PdfFile?) then Staged(Err(InternalServerError), written)
          else
            var merged := Merge.Merged(written[p.termo].doc, written[p.ressalvas].doc, survey);
            if p.out in written && written[p.out].Directory? then Staged(Err(InternalServerError), written)
            else Staged(Ok(merged), written[p.out := PdfFile(merged)])
  }

  /** The steps succeed exactly when the output directory is free or a
      directory, the survey file holds survey JSON, neither output file is a
      directory and both inputs are PDF files; every failure is a 500. */
  lemma AssembledSucceeds(p: Paths, nodes: map<string, Node>, height: int)
    requires Distinct(p)
    ensures var a := Assembled(p, nodes, height);
      a.outcome.Ok? <==>
        && (p.dir !in nodes || nodes[p.dir].Directory?)
        && p.json in nodes && nodes[p.json].NpsJson?
        && (p.temp !in nodes || !nodes[p.temp].Directory?)
        && p.termo in nodes && nodes[p.termo].PdfFile?
        && p.ressalvas in nodes && nodes[p.ressalvas].PdfFile?
        && (p.out !in nodes || !nodes[p.out].Directory?)
    ensures Assembled(p, nodes, height).outcome.Err? ==> Assembled(p, nodes, height).outcome.error == InternalServerError
  {
    var dir, json, temp := p.dir, p.json, p.temp;
    if !(dir in nodes && !nodes[dir].Directory?) {
      var withDir := WithDirectory(nodes, dir);
      assert (json in withDir <==> json in nodes) && (json in nodes ==> withDir[json] == nodes[json]);
      assert (temp in withDir <==> temp in nodes) && (temp in nodes ==> withDir[temp] == nodes[temp]);
      if json in withDir && withDir[json].NpsJson? && !(temp in withDir && withDir[temp].Directory?) {
        var written := withDir[temp := PdfFile(SurveyDocument(withDir[json].record, height))];
        assert (p.termo in written <==> p.termo in nodes)
          && (p.termo in nodes ==> written[p.termo] == nodes[p.termo]);
        assert (p.ressalvas in written <==> p.ressalvas in nodes)
          && (p.ressalvas in nodes ==> written[p.ressalvas] == nodes[p.ressalvas]);
        assert (p.out in written <==> p.out in nodes)
          && (p.out in nodes ==> written[p.out] == nodes[p.out]);
      }
    }
  }

  /** On success the merged file holds the term pages, the exceptions
      report pages and the one survey page, and the temporary file holds a
      PDF. */
  lemma AssembledMerges(p: Paths, nodes: map<string, Node>, height: int)
    requires Distinct(p)
    requires Assembled(p, nodes, height).outcome.Ok?
    ensures p.termo in nodes && nodes[p.termo].PdfFile?
    ensures p.ressalvas in nodes && nodes[p.ressalvas].PdfFile?
    ensures p.json in nodes && nodes[p.json].NpsJson?
    ensures var a := Assembled(p, nodes, height);
      var termo, ressalvas := nodes[p.termo].doc, nodes[p.ressalvas].doc;
      && a.outcome.value == Merge.Merged(termo, ressalvas, SurveyDocument(nodes[p.json].record, height))
      && |a.outcome.value| == |termo| + |ressalvas| + 1
      && p.out in a.nodes && a.nodes[p.out] == PdfFile(a.outcome.value)
      && p.temp in a.nodes && a.nodes[p.temp].PdfFile?
  {
    AssembledSucceeds(p, nodes, height);
    var termo, ressalvas := nodes[p.termo].doc, nodes[p.ressalvas].doc;
    Merge.MergedPages(termo, ressalvas, SurveyDocument(nodes[p.json].record, height));
  }

  /** Whatever the outcome, only the three output paths can change. */
  lemma AssembledFrame(p: Paths, nodes: map<string, Node>, height: int)
    ensures var a := Assembled(p, nodes, height);
      forall q :: q != p.dir && q != p.temp && q != p.out ==>
        (q in a.nodes <==> q in nodes) && (q in nodes ==> a.nodes[q] == nodes[q])
  {
    var a := Assembled(p, nodes, height);
    var dir := p.dir;
    var withDir := WithDirectory(nodes, dir);
    assert forall q :: q != dir ==> (q in withDir <==> q in nodes) && (q in nodes ==> withDir[q] == nodes[q]);
    if !(dir in nodes && !nodes[dir].Directory?) && p.json in withDir && withDir[p.json].NpsJson? {
      var survey := SurveyDocument(withDir[p.json].record, height);
      var written := withDir[p.temp := PdfFile(survey)];
      assert forall q :: q != dir && q != p.temp ==> (q in written <==> q in nodes) && (q in nodes ==> written[q] == nodes[q]);
    }
  }

  /** The file-system steps of `gerar_pdf_final`. */
  method Assemble(fs: FileSystem, p: Paths, height: int) returns (r: Result<Document>)
    requires Distinct(p)
    modifies fs
    ensures Staged(r, fs.nodes) == Assembled(p, old(fs.nodes), height)
  {
    var made := fs.MakeDirs(p.dir);
    if !made {
      return Err(InternalServerError);
    }
    var record := fs.ReadNpsJson(p.json);
    if record.None? {
      return Err(InternalServerError);
    }
    var survey := RenderSurvey(record.value, height);
    var saved := fs.WritePdf(p.temp, survey);
    if !saved {
      return Err(InternalServerError);
    }
    var termo := fs.ReadPdf(p.termo);
    if termo.None? {
      return Err(InternalServerError);
    }
    var ressalvas := fs.ReadPdf(p.ressalvas);
    if ressalvas.None? {
      return Err(InternalServerError);
    }
    var temp := fs.ReadPdf(p.temp);
    var merged := Merge.CopyThree(termo.value, ressalvas.value, temp.value);
    var written := fs.WritePdf(p.out, merged);
    if !written {
      return Err(InternalServerError);
    }
    r := Ok(merged);
  }

  /** The row update: final URL and status are set, every other column is kept. */
  function Finished(p: Processo, url: string): (r: Processo)
    ensures r.status == FinishedStatus && r.pdfFinal == Some(url)
    ensures r.(status := p.status, pdfFinal := p.pdfFinal) == p
  {
    p.(status := FinishedStatus, pdfFinal := Some(url))
  }

  /** The steps of `gerar_pdf_final` after the existence checks: the file
      steps, the upload, the row update and the removal of the temporary
      survey file. */
  method PublishFinal(ledger: Ledger, store: BlobStore, fs: FileSystem, processoId: string, p: Paths,
                      height: int, fileId: string, pathDecode: string -> Option<Bytes>)
    returns (r: Result<FinalResponse>)
    requires Distinct(p)
    modifies ledger, store, fs
    ensures store.reachable == old(store.reachable)
    ensures ledger.ressalvasItens == old(ledger.ressalvasItens)
    ensures r.Err? ==> ledger.processos == old(ledger.processos)
    ensures var a := Assembled(p, old(fs.nodes), height);
      a.outcome.Err? ==> r == Err(a.outcome.error) && fs.nodes == a.nodes && store.objects == old(store.objects)
    ensures var path := Upload.StorePath(RemoteFolder(processoId), fileId);
      Assembled(p, old(fs.nodes), height).outcome.Ok?
      && !(pathDecode(Codec.StripHeader(p.out)).Some? && old(store.reachable) && path !in old(store.objects)) ==>
        && r == Err(InternalServerError) && store.objects == old(store.objects)
        && fs.nodes == Assembled(p, old(fs.nodes), height).nodes
    ensures var path := Upload.StorePath(RemoteFolder(processoId), fileId);
      r.Ok? <==>
        && Assembled(p, old(fs.nodes), height).outcome.Ok?
        && pathDecode(Codec.StripHeader(p.out)).Some? && old(store.reachable)
        && path !in old(store.objects)
    ensures var a := Assembled(p, old(fs.nodes), height);
      var path := Upload.StorePath(RemoteFolder(processoId), fileId);
      r.Ok? ==>
        && r.value == FinalResponse(ReportedFile, store.publicUrl(path))
        && store.objects == old(store.objects)[path := pathDecode(Codec.StripHeader(p.out)).value]
        && fs.nodes == a.nodes - {p.temp}
        && |ledger.processos| == |old(ledger.processos)|
        && forall k :: 0 <= k < |ledger.processos| ==>
             ledger.processos[k] == if old(ledger.processos)[k].processoId == processoId
                                    then Finished(old(ledger.processos)[k], r.value.url)
                                    else old(ledger.processos)[k]
  {
    var merged := Assemble(fs, p, height);
    if merged.Err? {
      return Err(merged.error);
    }
    ghost var assembled := fs.nodes;
    AssembledMerges(p, old(fs.nodes), height);
    assert p.temp in assembled && assembled[p.temp].PdfFile?;
    var up := Upload.UploadPdf(store, p.out, RemoteFolder(processoId), fileId, pathDecode);
    if up.UploadFailed? {
      return Err(InternalServerError);
    }
    var url := up.url;
    ledger.UpdateProcessos((q: Processo) => q.processoId == processoId, (q: Processo) => Finished(q, url));
    var removed := fs.Remove(p.temp);
    assert fs.nodes == assembled - {p.temp};
    r := Ok(FinalResponse(ReportedFile, url));
  }

  /** `gerar_pdf_final`. The page height, the fresh upload name and the
      decoder `upload_pdf` applies to the path are parameters. */
  method GerarPdfFinal(ledger: Ledger, store: BlobStore, fs: FileSystem, processoId: string,
                       height: int, fileId: string, pathDecode: string -> Option<Bytes>)
    returns (r: Result<FinalResponse>)
    modifies ledger, store, fs
    ensures store.reachable == old(store.reachable)
    ensures ledger.ressalvasItens == old(ledger.ressalvasItens)
    ensures TermoFile(processoId) !in old(fs.nodes) ==> r == Err(HttpError(404, TermoMissingMessage))
    ensures TermoFile(processoId) in old(fs.nodes) && RessalvasFile(processoId) !in old(fs.nodes) ==>
      r == Err(HttpError(404, RessalvasMissingMessage))
    ensures (TermoFile(processoId) in old(fs.nodes) && RessalvasFile(processoId) in old(fs.nodes)
             && NpsJsonFile(processoId) !in old(fs.nodes)) ==> r == Err(HttpError(404, NpsMissingMessage))
    ensures var gated := TermoFile(processoId) in old(fs.nodes) && RessalvasFile(processoId) in old(fs.nodes)
      && NpsJsonFile(processoId) in old(fs.nodes);
      !gated ==> fs.nodes == old(fs.nodes) && store.objects == old(store.objects)
    ensures var gated := TermoFile(processoId) in old(fs.nodes) && RessalvasFile(processoId) in old(fs.nodes)
      && NpsJsonFile(processoId) in old(fs.nodes);
      var a := Assembled(PathsOf(processoId), old(fs.nodes), height);
      gated && a.outcome.Err? ==>
        r == Err(a.outcome.error) && fs.nodes == a.nodes && store.objects == old(store.objects)
    ensures var gated := TermoFile(processoId) in old(fs.nodes) && RessalvasFile(processoId) in old(fs.nodes)
      && NpsJsonFile(processoId) in old(fs.nodes);
      var path := Upload.StorePath(RemoteFolder(processoId), fileId);
      gated && Assembled(PathsOf(processoId), old(fs.nodes), height).outcome.Ok?
      && !(pathDecode(Codec.StripHeader(OutFile(processoId))).Some? && old(store.reachable) && path !in old(store.objects)) ==>
        && r == Err(InternalServerError) && store.objects == old(store.objects)
        && fs.nodes == Assembled(PathsOf(processoId), old(fs.nodes), height).nodes
    ensures r.Err? ==> ledger.processos == old(ledger.processos)
    ensures var gated := TermoFile(processoId) in old(fs.nodes) && RessalvasFile(processoId) in old(fs.nodes)
      && NpsJsonFile(processoId) in old(fs.nodes);
      var a := Assembled(PathsOf(processoId), old(fs.nodes), height);
      var path := Upload.StorePath(RemoteFolder(processoId), fileId);
      r.Ok? <==>
        && gated && a.outcome.Ok?
        && pathDecode(Codec.StripHeader(OutFile(processoId))).Some? && old(store.reachable)
        && path !in old(store.objects)
    ensures var a := Assembled(PathsOf(processoId), old(fs.nodes), height);
      var path := Upload.StorePath(RemoteFolder(processoId), fileId);
      r.Ok? ==>
        && r.value == FinalResponse(ReportedFile, store.publicUrl(path))
        && store.objects == old(store.objects)[path := pathDecode(Codec.StripHeader(OutFile(processoId))).value]
        && fs.nodes == a.nodes - {TempFile(processoId)}
        && |ledger.processos| == |old(ledger.processos)|
        && forall k :: 0 <= k < |ledger.processos| ==>
             ledger.processos[k] == if old(ledger.processos)[k].processoId == processoId
                                    then Finished(old(ledger.processos)[k], r.value.url)
                                    else old(ledger.processos)[k]
  {
    var termoExists := fs.Exists(TermoFile(processoId));
    if !termoExists {
      return Err(HttpError(404, TermoMissingMessage));
    }
    var ressalvasExists := fs.Exists(RessalvasFile(processoId));
    if !ressalvasExists {
      return Err(HttpError(404, RessalvasMissingMessage));
    }
    var npsExists := fs.Exists(NpsJsonFile(processoId));
    if !npsExists {
      return Err(HttpError(404, NpsMissingMessage));
    }
    PathsDistinct(processoId);
    r := PublishFinal(ledger, store, fs, processoId, PathsOf(processoId), height, fileId, pathDecode);
  }
}
