/** The drawing surface the renderers use (ReportLab's `canvas.Canvas`),
    reduced to what the page layout depends on: a document is a sequence
    of pages, a page is the sequence of items placed on it, and
    `showPage` closes the current page. Fonts, colours of text and the PDF
    byte format are not modelled. */
module Layout {
  import opened Common

  /** Something placed on a page: a string at (x, y), an image in a box
      whose lower-left corner is (x, y), or a full-page fill colour. */
  datatype Item =
    | Text(x: int, y: int, text: string)
    | Picture(x: int, y: int, width: int, height: int, data: Bytes)
    | Fill(color: string)

  type Page = seq<Item>

  type Document = seq<Page>

  /** The state of a canvas: the pages already closed and the open one. */
  datatype Sheet = Sheet(done: seq<Page>, page: Page)

  /** The state of a renderer: the canvas and the vertical cursor `y`. */
  datatype Cursor = Cursor(sheet: Sheet, y: int)

  const Blank: Sheet := Sheet([], [])

  function Place(s: Sheet, it: Item): (r: Sheet)
    ensures r.done == s.done && r.page == s.page + [it]
  {
    s.(page := s.page + [it])
  }

  /** `showPage`: the open page is closed, whatever it holds, and a new empty one begins. */
  function NewPage(s: Sheet): (r: Sheet)
    ensures r.done == s.done + [s.page] && r.page == []
  {
    Sheet(s.done + [s.page], [])
  }

  /** Every item placed so far, in placement order, across page boundaries. */
  function Placed(s: Sheet): seq<Item>
  {
    Concat(s.done) + s.page
  }

  function Concat(pages: seq<Page>): seq<Item>
  {
    if pages == [] then [] else Concat(pages[..|pages| - 1]) + pages[|pages| - 1]
  }

  /** A page break moves no item: the placed items are the same before and after. */
  lemma NewPageKeepsPlaced(s: Sheet)
    ensures Placed(NewPage(s)) == Placed(s)
  {
    var d := s.done + [s.page];
    assert d[..|d| - 1] == s.done;
  }

  lemma PlacedPlace(s: Sheet, it: Item)
    ensures Placed(Place(s, it)) == Placed(s) + [it]
  {
  }

  /** Items added to the open page follow everything placed before. */
  lemma PlacedExtend(s: Sheet, items: seq<Item>)
    ensures Placed(Sheet(s.done, s.page + items)) == Placed(s) + items
  {
  }

  /** The strings of the text items of `items`, in order. */
  function Texts(items: seq<Item>): seq<string>
  {
    if items == [] then []
    else Texts(items[..|items| - 1]) + (if items[|items| - 1].Text? then [items[|items| - 1].text] else [])
  }

  lemma TextsAppend(items: seq<Item>, it: Item)
    ensures Texts(items + [it]) == Texts(items) + (if it.Text? then [it.text] else [])
  {
    assert (items + [it])[..|items|] == items;
  }

  /** The strings of a concatenation are those of each part, in order. */
  lemma {:induction false} TextsConcat(a: seq<Item>, b: seq<Item>)
    ensures Texts(a + b) == Texts(a) + Texts(b)
    decreases |b|
  {
    if b != [] {
      var ab := a + b;
      var front := b[..|b| - 1];
      assert ab[..|ab| - 1] == a + front;
      assert ab[|ab| - 1] == b[|b| - 1];
      TextsConcat(a, front);
    } else {
      assert a + b == a;
    }
  }

  /** The strings of items that are all text are their texts, one for one. */
  lemma {:induction false} TextsOfText(items: seq<Item>)
    requires forall i :: 0 <= i < |items| ==> items[i].Text?
    ensures |Texts(items)| == |items|
    ensures forall i :: 0 <= i < |items| ==> Texts(items)[i] == items[i].text
    decreases |items|
  {
    if items != [] {
      TextsOfText(items[..|items| - 1]);
    }
  }

  /** A canvas object: ReportLab's `Canvas`, with the closed pages and the
      open page as fields that its drawing methods update. */
  class Canvas {
    var done: seq<Page>
    var page: Page

    constructor ()
      ensures done == [] && page == []
    {
      done, page := [], [];
    }

    function State(): Sheet
      reads this
    {
      Sheet(done, page)
    }

    /** `drawString(x, y, text)`. */
    method DrawString(x: int, y: int, text: string)
      modifies this
      ensures State() == Place(old(State()), Text(x, y, text))
    {
      page := page + [Text(x, y, text)];
    }

    /** `drawImage(image, x, y, width, height)`. */
    method DrawImage(x: int, y: int, width: int, height: int, data: Bytes)
      modifies this
      ensures State() == Place(old(State()), Picture(x, y, width, height, data))
    {
      page := page + [Picture(x, y, width, height, data)];
    }

    /** `setFillColor(color)` followed by a full-page `rect(..., fill=1)`. */
    method FillPage(color: string)
      modifies this
      ensures State() == Place(old(State()), Fill(color))
    {
      page := page + [Fill(color)];
    }

    /** `showPage()`. */
    method ShowPage()
      modifies this
      ensures State() == NewPage(old(State()))
    {
      done, page := done + [page], [];
    }

    /** `save()`: an open page that holds something is closed first; the
        document is the sequence of closed pages. */
    method Save() returns (doc: Document)
      ensures doc == if page == [] then done else done + [page]
    {
      doc := if page == [] then done else done + [page];
    }
  }
}
