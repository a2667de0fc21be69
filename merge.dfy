/** Concatenating PDF documents page by page, as PyPDF2's `PdfWriter`
    (`add_page`) and `PdfMerger` (`append`) do for the finalisation
    handlers of app/routers/nps.py and app/routers/finalizacao.py. */
module Merge {
  import opened Layout

  /** The merged document: the term pages, then the exceptions report
      pages, then the survey pages. */
  function Merged(termo: Document, ressalvas: Document, nps: Document): Document
  {
    termo + ressalvas + nps
  }

  /** No page is reordered, dropped or duplicated: each input's pages sit,
      in order, at its own offset. */
  lemma MergedPages(termo: Document, ressalvas: Document, nps: Document)
    ensures var m := Merged(termo, ressalvas, nps);
      && |m| == |termo| + |ressalvas| + |nps|
      && m[..|termo|] == termo
      && m[|termo|..|termo| + |ressalvas|] == ressalvas
      && m[|termo| + |ressalvas|..] == nps
  {
    var m := Merged(termo, ressalvas, nps);
    assert m == termo + (ressalvas + nps);
    assert m[|termo|..] == ressalvas + nps;
    assert m[|termo|..][..|ressalvas|] == ressalvas;
  }

  /** A PDF writer: the pages added so far. */
  class PdfWriter {
    var pages: Document

    constructor ()
      ensures pages == []
    {
      pages := [];
    }

    /** `add_page(page)`. */
    method AddPage(page: Page)
      modifies this
      ensures pages == old(pages) + [page]
    {
      pages := pages + [page];
    }

    /** `PdfMerger.append(document)`: all pages of a document, in order. */
    method Append(doc: Document)
      modifies this
      ensures pages == old(pages) + doc
    {
      pages := pages + doc;
    }

    /** `for page in reader.pages: writer.add_page(page)`. */
    method CopyPages(doc: Document)
      modifies this
      ensures pages == old(pages) + doc
    {
      var i := 0;
      while i < |doc|
        invariant 0 <= i <= |doc|
        invariant pages == old(pages) + doc[..i]
      {
        AddPage(doc[i]);
        assert doc[..i + 1] == doc[..i] + [doc[i]];
        i := i + 1;
      }
      assert doc[..i] == doc;
    }
  }

  /** The merge of app/routers/nps.py: three `append` calls on a fresh merger. */
  method AppendThree(termo: Document, ressalvas: Document, nps: Document) returns (m: Document)
    ensures m == Merged(termo, ressalvas, nps)
  {
    var merger := new PdfWriter();
    merger.Append(termo);
    merger.Append(ressalvas);
    merger.Append(nps);
    m := merger.pages;
  }

  /** The merge of app/routers/finalizacao.py: three page-copy loops on a fresh writer. */
  method CopyThree(termo: Document, ressalvas: Document, nps: Document) returns (m: Document)
    ensures m == Merged(termo, ressalvas, nps)
  {
    var writer := new PdfWriter();
    writer.CopyPages(termo);
    writer.CopyPages(ressalvas);
    writer.CopyPages(nps);
    m := writer.pages;
  }
}
