/** app/routers/ressalvas.py: the exceptions report (`gerar_pdf_ressalvas`)
    and the route that stores it and records the exception items
    (`salvar_ressalvas`). The page height is the parameter `height`; the
    cursor starts at `height - 50` and a new page begins before an item
    whenever the cursor is below 220. */
module Ressalvas {
  import opened Common
  import opened Text
  import opened Layout
  import opened Stores
  import Codec
  import Upload
  import Base64

  const MarginX: int := 40
  const BreakBelow: int := 220

  /** One exception item of the request (`ImagemRessalva`). */
  datatype ImagemRessalva = ImagemRessalva(
    item: string,
    descricao: string,
    prazo: Option<Date>,
    aprovacao: bool,
    imagemBase64: Option<string>)

  /** The request body (`RessalvasRequest`); `processoId` holds the human code. */
  datatype RessalvasRequest = RessalvasRequest(
    processoId: string,
    responsavel: string,
    observacoes: Option<string>,
    imagens: seq<ImagemRessalva>)

  /** Where the cursor is reset to at the top of a page. */
  function Top(height: int): int
  {
    height - 50
  }

  function ItemLabel(idx: nat, item: string): string
  {
    "Item " + NatToString(idx) + ": " + item
  }

  function DescriptionLine(descricao: string): string
  {
    "Descrição: " + descricao
  }

  function DeadlineLine(prazo: Date): string
  {
    "Prazo: " + DayMonthYear(prazo)
  }

  function ApprovalLine(aprovacao: bool): string
  {
    "Aprovação: " + (if aprovacao then "Sim" else "Não")
  }

  /** The vertical space an item block takes: four 15-unit lines (three when
      there is no deadline), then 170 for an image or 20 without one. */
  function ItemCost(img: ImagemRessalva): int
  {
    45 + (if img.prazo.Some? then 15 else 0) + (if Truthy(img.imagemBase64) then 170 else 20)
  }

  /** The header block: title, process code, responsible person, date, and
      the observations block only when `observacoes` is truthy. */
  function HeaderLayout(codigo: string, responsavel: string, observacoes: Option<string>, agora: string, height: int): (c: Cursor)
    ensures c.sheet.done == []
    ensures c.y == Top(height) - 85 - (if Truthy(observacoes) then 40 else 0)
    ensures |c.sheet.page| == if Truthy(observacoes) then 6 else 4
    ensures Truthy(observacoes) ==> c.sheet.page[5] == Text(MarginX, Top(height) - 100, observacoes.value)
  {
    var y := Top(height);
    var s := Place(Blank, Text(MarginX, y, "RELATÓRIO DE RESSALVAS"));
    var s := Place(s, Text(MarginX, y - 30, "Processo: " + codigo));
    var s := Place(s, Text(MarginX, y - 45, "Responsável: " + responsavel));
    var s := Place(s, Text(MarginX, y - 60, "Data: " + agora));
    if Truthy(observacoes) then
      var s := Place(s, Text(MarginX, y - 85, "Observações:"));
      Cursor(Place(s, Text(MarginX, y - 100, observacoes.value)), y - 125)
    else
      Cursor(s, y - 85)
  }

  /** The text lines of an item block whose label is at `y0`: label,
      description, deadline when there is one, approval; 15 units apart. */
  function ItemLines(y0: int, idx: nat, img: ImagemRessalva): (r: seq<Item>)
    ensures |r| == if img.prazo.Some? then 4 else 3
  {
    var heading := Text(MarginX, y0, ItemLabel(idx, img.item));
    var description := Text(MarginX, y0 - 15, DescriptionLine(img.descricao));
    if img.prazo.Some? then
      [heading, description, Text(MarginX, y0 - 30, DeadlineLine(img.prazo.value)),
       Text(MarginX, y0 - 45, ApprovalLine(img.aprovacao))]
    else
      [heading, description, Text(MarginX, y0 - 30, ApprovalLine(img.aprovacao))]
  }

  /** The lines of a block are text at the left margin, 15 units apart,
      from the numbered label down to the approval line. */
  lemma ItemLinesSpaced(y0: int, idx: nat, img: ImagemRessalva)
    ensures var r := ItemLines(y0, idx, img);
      forall k :: 0 <= k < |r| ==> r[k].Text? && r[k].x == MarginX && r[k].y == y0 - 15 * k
    ensures var r := ItemLines(y0, idx, img);
      r[0].text == ItemLabel(idx, img.item) && r[|r| - 1].text == ApprovalLine(img.aprovacao)
  {
    var r := ItemLines(y0, idx, img);
    if img.prazo.Some? {
      assert |r| == 4 && r[3].y == y0 - 45;
    } else {
      assert |r| == 3 && r[2].y == y0 - 30;
    }
  }

  /** The page-break test before an item: below 220 the open page is
      closed and the cursor goes back to the top. */
  function BreakIfLow(cur: Cursor, height: int): Cursor
  {
    if cur.y < BreakBelow then Cursor(NewPage(cur.sheet), Top(height)) else cur
  }

  /** The block drawn at the cursor: its lines follow what the page held, the
      cursor then drops by the item's cost, and an image that does not decode
      aborts with the error of `decode_base64_image`. */
  function Block(cur: Cursor, idx: nat, img: ImagemRessalva): (r: Result<Cursor>)
    ensures r.Ok? <==> ImageDecodes(img)
  {
    var lines := ItemLines(cur.y, idx, img);
    var below := Cursor(Sheet(cur.sheet.done, cur.sheet.page + lines), cur.y - 15 * |lines|);
    if !Truthy(img.imagemBase64) then Ok(below.(y := below.y - 20))
    else PictureAt(below, img.imagemBase64.value)
  }

  /** The image of a block, 150 high with its top at the cursor, and the
      20 units below it; the decoder's error when it does not decode. */
  function PictureAt(cur: Cursor, data: string): (r: Result<Cursor>)
    ensures r.Ok? <==> Codec.DecodeImage(data).Ok?
  {
    match Codec.DecodeImage(data)
    case Err(e) => Err(e)
    case Ok(b) => Ok(Cursor(Place(cur.sheet, Picture(MarginX, cur.y - 150, 200, 150, b)), cur.y - 170))
  }

  /** One item block (the body of the `for` loop): the break test, then the block. */
  function ItemBlock(cur: Cursor, idx: nat, img: ImagemRessalva, height: int): (r: Result<Cursor>)
    ensures r.Ok? <==> ImageDecodes(img)
  {
    Block(BreakIfLow(cur, height), idx, img)
  }

  /** What one item block does: the break, the lines after what the page
      held, the cursor drop by the item's cost, and the decoder's error. */
  lemma ItemBlockShape(cur: Cursor, idx: nat, img: ImagemRessalva, height: int)
    ensures var r := ItemBlock(cur, idx, img, height);
      r.Err? ==> Truthy(img.imagemBase64) && r.error == Codec.DecodeImage(img.imagemBase64.value).error
    ensures var r := ItemBlock(cur, idx, img, height);
      r.Ok? ==>
      var broke := cur.y < BreakBelow;
      var start := if broke then Top(height) else cur.y;
      var before := if broke then [] else cur.sheet.page;
      var lines := ItemLines(start, idx, img);
      && r.value.y == start - ItemCost(img)
      && r.value.sheet.done == (if broke then cur.sheet.done + [cur.sheet.page] else cur.sheet.done)
      && |r.value.sheet.page| == |before| + |lines| + (if Truthy(img.imagemBase64) then 1 else 0)
      && r.value.sheet.page[..|before| + |lines|] == before + lines
  {
    var r := ItemBlock(cur, idx, img, height);
    if r.Ok? && Truthy(img.imagemBase64) {
      var broke := cur.y < BreakBelow;
      var s0 := if broke then NewPage(cur.sheet) else cur.sheet;
      var start := if broke then Top(height) else cur.y;
      var lines := ItemLines(start, idx, img);
      var b := Codec.DecodeImage(img.imagemBase64.value).value;
      var page := s0.page + lines + [Picture(MarginX, start - 15 * |lines| - 150, 200, 150, b)];
      assert page[..|s0.page| + |lines|] == s0.page + lines;
    }
  }

  /** The `for` loop over the items, as a fold over a prefix; the item at
      position k of the list is labelled `Item k+1`. */
  function ItemsLayout(cur: Cursor, imgs: seq<ImagemRessalva>, height: int): Result<Cursor>
    decreases |imgs|
  {
    if imgs == [] then Ok(cur)
    else
      match ItemsLayout(cur, imgs[..|imgs| - 1], height)
      case Err(e) => Err(e)
      case Ok(c) => ItemBlock(c, |imgs|, imgs[|imgs| - 1], height)
  }

  /** Where the cursor is before the next item, from the cursor positions alone. */
  function CursorAfter(y: int, imgs: seq<ImagemRessalva>, height: int): int
    decreases |imgs|
  {
    if imgs == [] then y
    else
      var before := CursorAfter(y, imgs[..|imgs| - 1], height);
      (if before < BreakBelow then Top(height) else before) - ItemCost(imgs[|imgs| - 1])
  }

  /** The number of items before which the cursor is below 220. */
  function Breaks(y: int, imgs: seq<ImagemRessalva>, height: int): nat
    decreases |imgs|
  {
    if imgs == [] then 0
    else
      var prefix := imgs[..|imgs| - 1];
      Breaks(y, prefix, height) + (if CursorAfter(y, prefix, height) < BreakBelow then 1 else 0)
  }

  /** The item loop moves the cursor as `CursorAfter` says and closes one
      page per break. */
  lemma {:induction false} ItemsLayoutPages(cur: Cursor, imgs: seq<ImagemRessalva>, height: int)
    requires ItemsLayout(cur, imgs, height).Ok?
    ensures ItemsLayout(cur, imgs, height).value.y == CursorAfter(cur.y, imgs, height)
    ensures |ItemsLayout(cur, imgs, height).value.sheet.done| == |cur.sheet.done| + Breaks(cur.y, imgs, height)
  {
    if imgs != [] {
      ItemsLayoutPages(cur, imgs[..|imgs| - 1], height);
    }
  }

  /** An item can be drawn: it has no image, or its image decodes. */
  predicate ImageDecodes(img: ImagemRessalva)
  {
    !Truthy(img.imagemBase64) || Codec.DecodeImage(img.imagemBase64.value).Ok?
  }

  /** Every item of the list can be drawn. */
  predicate AllImagesDecode(imgs: seq<ImagemRessalva>)
    decreases |imgs|
  {
    imgs == [] || (AllImagesDecode(imgs[..|imgs| - 1]) && ImageDecodes(imgs[|imgs| - 1]))
  }

  /** The item loop succeeds exactly when every item that has an image
      carries a decodable one; a failure is a 400. */
  lemma {:induction false} ItemsLayoutSucceeds(cur: Cursor, imgs: seq<ImagemRessalva>, height: int)
    ensures ItemsLayout(cur, imgs, height).Ok? <==> AllImagesDecode(imgs)
    ensures ItemsLayout(cur, imgs, height).Err? ==> ItemsLayout(cur, imgs, height).error.status == 400
  {
    if imgs != [] {
      var prefix := imgs[..|imgs| - 1];
      ItemsLayoutSucceeds(cur, prefix, height);
      var pr := ItemsLayout(cur, prefix, height);
      assert ItemsLayout(cur, imgs, height) ==
        if pr.Err? then Err(pr.error) else ItemBlock(pr.value, |imgs|, imgs[|imgs| - 1], height);
    }
  }

  /** Once the loop has failed on a prefix, the whole loop fails with that error. */
  lemma {:induction false} ItemsLayoutErrorSticks(cur: Cursor, imgs: seq<ImagemRessalva>, k: nat, height: int)
    requires k <= |imgs|
    requires ItemsLayout(cur, imgs[..k], height).Err?
    ensures ItemsLayout(cur, imgs, height) == ItemsLayout(cur, imgs[..k], height)
    decreases |imgs| - k
  {
    if k < |imgs| {
      var next := imgs[..k + 1];
      assert next[..|next| - 1] == imgs[..k];
      ItemsLayoutErrorSticks(cur, imgs, k + 1, height);
    } else {
      assert imgs[..k] == imgs;
    }
  }

  /** The strings an item block prints, whatever its position: the label
      numbered `idx`, the description, the deadline when there is one, and
      the approval line. */
  function ItemTexts(idx: nat, img: ImagemRessalva): seq<string>
  {
    [ItemLabel(idx, img.item), DescriptionLine(img.descricao)]
    + (if img.prazo.Some? then [DeadlineLine(img.prazo.value)] else [])
    + [ApprovalLine(img.aprovacao)]
  }

  /** The strings of the items in input order, the item at position k
      labelled `Item k+1`. */
  function ItemsTexts(imgs: seq<ImagemRessalva>): seq<string>
    decreases |imgs|
  {
    if imgs == [] then [] else ItemsTexts(imgs[..|imgs| - 1]) + ItemTexts(|imgs|, imgs[|imgs| - 1])
  }

  /** The strings of the lines of a block are `ItemTexts`, at any height. */
  lemma ItemLinesTexts(y0: int, idx: nat, img: ImagemRessalva)
    ensures Texts(ItemLines(y0, idx, img)) == ItemTexts(idx, img)
  {
    var r := ItemLines(y0, idx, img);
    var want := ItemTexts(idx, img);
    assert |want| == |r|;
    assert forall i :: 0 <= i < |r| ==> r[i].Text? && r[i].text == want[i];
    TextsOfText(r);
  }

  /** A block without an image places its lines after everything placed before it. */
  lemma PlainBlockPlaced(cur: Cursor, idx: nat, img: ImagemRessalva)
    requires !Truthy(img.imagemBase64)
    ensures Block(cur, idx, img).Ok?
    ensures Placed(Block(cur, idx, img).value.sheet) == Placed(cur.sheet) + ItemLines(cur.y, idx, img)
  {
    PlacedExtend(cur.sheet, ItemLines(cur.y, idx, img));
  }

  /** A block whose image decodes to `b` places its lines, then the picture below them. */
  lemma PictureBlockSheet(cur: Cursor, idx: nat, img: ImagemRessalva, b: Bytes)
    requires Truthy(img.imagemBase64)
    requires Codec.DecodeImage(img.imagemBase64.value) == Ok(b)
    ensures var lines := ItemLines(cur.y, idx, img);
      var below := Cursor(Sheet(cur.sheet.done, cur.sheet.page + lines), cur.y - 15 * |lines|);
      Block(cur, idx, img) == Ok(Cursor(Place(below.sheet, Picture(MarginX, below.y - 150, 200, 150, b)), below.y - 170))
  {
  }

  /** A block places its lines after everything placed before it, then
      its image when it has one. */
  lemma BlockPlaced(cur: Cursor, idx: nat, img: ImagemRessalva) returns (tail: seq<Item>)
    requires Block(cur, idx, img).Ok?
    ensures Placed(Block(cur, idx, img).value.sheet) == Placed(cur.sheet) + ItemLines(cur.y, idx, img) + tail
    ensures tail == [] || (|tail| == 1 && tail[0].Picture?)
  {
    var lines := ItemLines(cur.y, idx, img);
    if Truthy(img.imagemBase64) {
      var below := Sheet(cur.sheet.done, cur.sheet.page + lines);
      var pic := Picture(MarginX, cur.y - 15 * |lines| - 150, 200, 150, Codec.DecodeImage(img.imagemBase64.value).value);
      PictureBlockSheet(cur, idx, img, Codec.DecodeImage(img.imagemBase64.value).value);
      PlacedPlace(below, pic);
      PlacedExtend(cur.sheet, lines);
      tail := [pic];
    } else {
      PlainBlockPlaced(cur, idx, img);
      tail := [];
    }
  }

  /** Text added after `placed` and `lines` by a tail holding no text
      leaves the strings of `placed` and `lines`. */
  lemma TextsBeforePicture(placed: seq<Item>, lines: seq<Item>, tail: seq<Item>)
    requires tail == [] || (|tail| == 1 && tail[0].Picture?)
    ensures Texts(placed + lines + tail) == Texts(placed) + Texts(lines)
  {
    TextsConcat(placed, lines);
    if tail != [] {
      assert tail == [tail[0]];
      TextsAppend(placed + lines, tail[0]);
    } else {
      assert placed + lines + tail == placed + lines;
    }
  }

  /** A block adds its strings after all the strings placed before it;
      its image, if any, adds none. */
  lemma BlockTexts(cur: Cursor, idx: nat, img: ImagemRessalva)
    requires Block(cur, idx, img).Ok?
    ensures Texts(Placed(Block(cur, idx, img).value.sheet)) == Texts(Placed(cur.sheet)) + ItemTexts(idx, img)
  {
    var lines := ItemLines(cur.y, idx, img);
    var tail := BlockPlaced(cur, idx, img);
    TextsBeforePicture(Placed(cur.sheet), lines, tail);
    ItemLinesTexts(cur.y, idx, img);
  }

  /** Whatever the page break, one item block adds its strings after all
      the strings placed before it. */
  lemma ItemBlockTexts(cur: Cursor, idx: nat, img: ImagemRessalva, height: int)
    requires ItemBlock(cur, idx, img, height).Ok?
    ensures Texts(Placed(ItemBlock(cur, idx, img, height).value.sheet)) == Texts(Placed(cur.sheet)) + ItemTexts(idx, img)
  {
    var start := BreakIfLow(cur, height);
    NewPageKeepsPlaced(cur.sheet);
    assert Placed(start.sheet) == Placed(cur.sheet);
    BlockTexts(start, idx, img);
  }

  /** The item loop adds the strings of every item, in input order, after
      those placed before it. */
  lemma {:induction false} ItemsLayoutTexts(cur: Cursor, imgs: seq<ImagemRessalva>, height: int)
    requires ItemsLayout(cur, imgs, height).Ok?
    ensures Texts(Placed(ItemsLayout(cur, imgs, height).value.sheet)) == Texts(Placed(cur.sheet)) + ItemsTexts(imgs)
    decreases |imgs|
  {
    if imgs != [] {
      var prefix := imgs[..|imgs| - 1];
      var c := ItemsLayout(cur, prefix, height).value;
      ItemsLayoutTexts(cur, prefix, height);
      ItemBlockTexts(c, |imgs|, imgs[|imgs| - 1], height);
    }
  }

  /** The strings of the header: title, code, responsible person and date,
      then the observations heading and text when there are observations. */
  function HeaderTexts(codigo: string, responsavel: string, observacoes: Option<string>, agora: string): seq<string>
  {
    ["RELATÓRIO DE RESSALVAS", "Processo: " + codigo, "Responsável: " + responsavel, "Data: " + agora]
    + (if Truthy(observacoes) then ["Observações:", observacoes.value] else [])
  }

  lemma HeaderLayoutTexts(codigo: string, responsavel: string, observacoes: Option<string>, agora: string, height: int)
    ensures Texts(Placed(HeaderLayout(codigo, responsavel, observacoes, agora, height).sheet))
      == HeaderTexts(codigo, responsavel, observacoes, agora)
  {
    var head := HeaderLayout(codigo, responsavel, observacoes, agora, height);
    var y := Top(height);
    var four := [Text(MarginX, y, "RELATÓRIO DE RESSALVAS"), Text(MarginX, y - 30, "Processo: " + codigo),
                 Text(MarginX, y - 45, "Responsável: " + responsavel), Text(MarginX, y - 60, "Data: " + agora)];
    var fourTexts := ["RELATÓRIO DE RESSALVAS", "Processo: " + codigo, "Responsável: " + responsavel, "Data: " + agora];
    TextsOfText(four);
    assert Texts(four) == fourTexts;
    if Truthy(observacoes) {
      var two := [Text(MarginX, y - 85, "Observações:"), Text(MarginX, y - 100, observacoes.value)];
      assert Placed(head.sheet) == four + two;
      TextsOfText(two);
      assert Texts(two) == ["Observações:", observacoes.value];
      TextsConcat(four, two);
    } else {
      assert Placed(head.sheet) == four;
    }
  }

  /** The report prints the header strings, then the strings of every item
      in input order, `Item 1` to `Item n`, across its pages. */
  lemma RessalvasTexts(codigo: string, responsavel: string, observacoes: Option<string>,
                       imgs: seq<ImagemRessalva>, agora: string, height: int)
    requires RessalvasDocument(codigo, responsavel, observacoes, imgs, agora, height).Ok?
    ensures Texts(Concat(RessalvasDocument(codigo, responsavel, observacoes, imgs, agora, height).value))
      == HeaderTexts(codigo, responsavel, observacoes, agora) + ItemsTexts(imgs)
  {
    var head := HeaderLayout(codigo, responsavel, observacoes, agora, height);
    HeaderLayoutTexts(codigo, responsavel, observacoes, agora, height);
    ItemsLayoutTexts(head, imgs, height);
    var last := ItemsLayout(head, imgs, height).value.sheet;
    NewPageKeepsPlaced(last);
    assert Placed(NewPage(last)) == Concat(NewPage(last).done);
  }

  /** The whole report: header, items, and the final `showPage`. */
  function RessalvasDocument(codigo: string, responsavel: string, observacoes: Option<string>,
                             imgs: seq<ImagemRessalva>, agora: string, height: int): Result<Document>
  {
    match ItemsLayout(HeaderLayout(codigo, responsavel, observacoes, agora, height), imgs, height)
    case Err(e) => Err(e)
    case Ok(c) => Ok(NewPage(c.sheet).done)
  }

  /** The report has one page per break plus the last one; the first break
      test sees the cursor below the header (and observations, when present). */
  lemma RessalvasPageCount(codigo: string, responsavel: string, observacoes: Option<string>,
                           imgs: seq<ImagemRessalva>, agora: string, height: int)
    requires RessalvasDocument(codigo, responsavel, observacoes, imgs, agora, height).Ok?
    ensures |RessalvasDocument(codigo, responsavel, observacoes, imgs, agora, height).value|
      == 1 + Breaks(Top(height) - 85 - (if Truthy(observacoes) then 40 else 0), imgs, height)
  {
    ItemsLayoutPages(HeaderLayout(codigo, responsavel, observacoes, agora, height), imgs, height);
  }

  /** The report renders exactly when every item image decodes; otherwise
      the error is a 400. */
  lemma RessalvasRenders(codigo: string, responsavel: string, observacoes: Option<string>,
                         imgs: seq<ImagemRessalva>, agora: string, height: int)
    ensures RessalvasDocument(codigo, responsavel, observacoes, imgs, agora, height).Ok? <==> AllImagesDecode(imgs)
    ensures RessalvasDocument(codigo, responsavel, observacoes, imgs, agora, height).Err? ==>
      RessalvasDocument(codigo, responsavel, observacoes, imgs, agora, height).error.status == 400
  {
    ItemsLayoutSucceeds(HeaderLayout(codigo, responsavel, observacoes, agora, height), imgs, height);
  }

  /** Draws the text lines of an item block whose label is at `y0`. */
  method DrawLines(c: Canvas, y0: int, idx: nat, img: ImagemRessalva)
    modifies c
    ensures c.State() == Sheet(old(c.done), old(c.page) + ItemLines(y0, idx, img))
  {
    ghost var lines := ItemLines(y0, idx, img);
    var y := y0;
    c.DrawString(MarginX, y, ItemLabel(idx, img.item));
    y := y - 15;
    c.DrawString(MarginX, y, DescriptionLine(img.descricao));
    y := y - 15;
    assert c.page == old(c.page) + lines[..2];
    if img.prazo.Some? {
      c.DrawString(MarginX, y, DeadlineLine(img.prazo.value));
      y := y - 15;
      assert c.page == old(c.page) + lines[..3];
    }
    c.DrawString(MarginX, y, ApprovalLine(img.aprovacao));
    assert lines == lines[..|lines| - 1] + [lines[|lines| - 1]];
  }

  /** Draws the image of a block at `y`. */
  method DrawPicture(c: Canvas, y: int, data: string) returns (r: Result<int>)
    modifies c
    ensures r.Ok? <==> PictureAt(Cursor(old(c.State()), y), data).Ok?
    ensures r.Ok? ==> PictureAt(Cursor(old(c.State()), y), data).value == Cursor(c.State(), r.value)
    ensures r.Err? ==> PictureAt(Cursor(old(c.State()), y), data).error == r.error
  {
    ghost var spec := PictureAt(Cursor(c.State(), y), data);
    var decoded := Codec.DecodeImage(data);
    if decoded.Err? {
      assert spec == Err(decoded.error);
      return Err(decoded.error);
    }
    ghost var placed := Place(c.State(), Picture(MarginX, y - 150, 200, 150, decoded.value));
    assert spec == Ok(Cursor(placed, y - 170));
    c.DrawImage(MarginX, y - 150, 200, 150, decoded.value);
    r := Ok(y - 170);
  }

  /** Draws the block of one item at `y`, the open page already chosen. */
  method DrawBlock(c: Canvas, y: int, idx: nat, img: ImagemRessalva) returns (r: Result<int>)
    modifies c
    ensures r.Ok? <==> Block(Cursor(old(c.State()), y), idx, img).Ok?
    ensures r.Ok? ==> Block(Cursor(old(c.State()), y), idx, img).value == Cursor(c.State(), r.value)
    ensures r.Err? ==> Block(Cursor(old(c.State()), y), idx, img).error == r.error
  {
    ghost var lines := ItemLines(y, idx, img);
    ghost var below := Cursor(Sheet(c.done, c.page + lines), y - 15 * |lines|);
    ghost var spec := Block(Cursor(c.State(), y), idx, img);
    assert spec == if !Truthy(img.imagemBase64) then Ok(below.(y := below.y - 20))
      else PictureAt(below, img.imagemBase64.value);
    DrawLines(c, y, idx, img);
    var yi := y - 15 * |ItemLines(y, idx, img)|;
    assert Cursor(c.State(), yi) == below;
    if Truthy(img.imagemBase64) {
      r := DrawPicture(c, yi, img.imagemBase64.value);
    } else {
      r := Ok(yi - 20);
    }
  }

  /** Draws one item block on the canvas (the loop body of `gerar_pdf_ressalvas`). */
  method DrawItem(c: Canvas, y: int, idx: nat, img: ImagemRessalva, height: int) returns (r: Result<int>)
    modifies c
    ensures r.Ok? <==> ItemBlock(Cursor(old(c.State()), y), idx, img, height).Ok?
    ensures r.Ok? ==> ItemBlock(Cursor(old(c.State()), y), idx, img, height).value == Cursor(c.State(), r.value)
    ensures r.Err? ==> ItemBlock(Cursor(old(c.State()), y), idx, img, height).error == r.error
  {
    var top := y;
    if y < BreakBelow {
      c.ShowPage();
      top := Top(height);
    }
    assert Cursor(c.State(), top) == BreakIfLow(Cursor(old(c.State()), y), height);
    r := DrawBlock(c, top, idx, img);
  }

  /** The title, process, responsible, date and optional observation lines
      on a blank canvas; the cursor ends where `HeaderLayout` leaves it. */
  method DrawHeader(c: Canvas, codigo: string, responsavel: string, observacoes: Option<string>,
                    agora: string, height: int) returns (y: int)
    requires c.State() == Blank
    modifies c
    ensures Cursor(c.State(), y) == HeaderLayout(codigo, responsavel, observacoes, agora, height)
  {
    y := Top(height);
    c.DrawString(MarginX, y, "RELATÓRIO DE RESSALVAS");
    y := y - 30;
    c.DrawString(MarginX, y, "Processo: " + codigo);
    y := y - 15;
    c.DrawString(MarginX, y, "Responsável: " + responsavel);
    y := y - 15;
    c.DrawString(MarginX, y, "Data: " + agora);
    y := y - 25;
    if Truthy(observacoes) {
      c.DrawString(MarginX, y, "Observações:");
      y := y - 15;
      c.DrawString(MarginX, y, observacoes.value);
      y := y - 25;
    }
  }

  /** `gerar_pdf_ressalvas`: renders the report on a fresh canvas. */
  method RenderRessalvas(codigo: string, responsavel: string, observacoes: Option<string>,
                         imgs: seq<ImagemRessalva>, agora: string, height: int) returns (r: Result<Document>)
    ensures r == RessalvasDocument(codigo, responsavel, observacoes, imgs, agora, height)
  {
    var c := new Canvas();
    var y := DrawHeader(c, codigo, responsavel, observacoes, agora, height);
    ghost var header := HeaderLayout(codigo, responsavel, observacoes, agora, height);
    var i := 0;
    while i < |imgs|
      invariant 0 <= i <= |imgs|
      invariant ItemsLayout(header, imgs[..i], height) == Ok(Cursor(c.State(), y))
    {
      var next := imgs[..i + 1];
      assert next[..|next| - 1] == imgs[..i];
      var step := DrawItem(c, y, i + 1, imgs[i], height);
      if step.Err? {
        ItemsLayoutErrorSticks(header, imgs, i + 1, height);
        return Err(step.error);
      }
      y := step.value;
      i := i + 1;
    }
    assert imgs[..i] == imgs;
    c.ShowPage();
    var doc := c.Save();
    r := Ok(doc);
  }

  /** The row of `ressalvas_itens` for one item, stamped `stamp`; `None`
      when the hash cannot be computed (Python raises there). */
  function ItemRow(uuid: string, img: ImagemRessalva, stamp: string, digest: Bytes -> string): (r: Option<ItemRessalva>)
    ensures r.Some? <==> ImageDecodes(img)
    ensures r.Some? ==>
      && r.value.processoId == uuid && r.value.item == img.item && r.value.descricao == img.descricao
      && r.value.aprovacao == img.aprovacao && r.value.criadoEm == stamp
      && r.value.prazo == (if img.prazo.Some? then Some(IsoDate(img.prazo.value)) else None)
      && r.value.imagemHash == (if Truthy(img.imagemBase64) then Some(digest(Codec.DecodeImage(img.imagemBase64.value).value)) else None)
  {
    var prazo := if img.prazo.Some? then Some(IsoDate(img.prazo.value)) else None;
    if !Truthy(img.imagemBase64) then
      Some(ItemRessalva(uuid, img.item, img.descricao, prazo, img.aprovacao, None, stamp))
    else
      match Codec.HashImage(img.imagemBase64.value, digest)
      case None => None
      case Some(h) => Some(ItemRessalva(uuid, img.item, img.descricao, prazo, img.aprovacao, Some(h), stamp))
  }

  /** The rows the item loop of `salvar_ressalvas` builds; the k-th call of
      the UTC clock, `utcNow(k)`, stamps the k-th row. */
  function ItemRows(uuid: string, imgs: seq<ImagemRessalva>, utcNow: nat -> string, digest: Bytes -> string): (r: Option<seq<ItemRessalva>>)
    ensures r.Some? ==> |r.value| == |imgs|
    decreases |imgs|
  {
    if imgs == [] then Some([])
    else
      match ItemRows(uuid, imgs[..|imgs| - 1], utcNow, digest)
      case None => None
      case Some(rows) =>
        match ItemRow(uuid, imgs[|imgs| - 1], utcNow(|imgs| - 1), digest)
        case None => None
        case Some(row) => Some(rows + [row])
  }

  /** The rows exist exactly when the report renders (every image decodes),
      and then there is one row per item, in item order. */
  lemma {:induction false} ItemRowsShape(uuid: string, imgs: seq<ImagemRessalva>, utcNow: nat -> string, digest: Bytes -> string)
    ensures ItemRows(uuid, imgs, utcNow, digest).Some? <==> AllImagesDecode(imgs)
    ensures ItemRows(uuid, imgs, utcNow, digest).Some? ==>
      var rows := ItemRows(uuid, imgs, utcNow, digest).value;
      |rows| == |imgs| && forall k :: 0 <= k < |imgs| ==> ItemRow(uuid, imgs[k], utcNow(k), digest) == Some(rows[k])
  {
    if imgs != [] {
      var prefix := imgs[..|imgs| - 1];
      ItemRowsShape(uuid, prefix, utcNow, digest);
      var last := ItemRow(uuid, imgs[|imgs| - 1], utcNow(|imgs| - 1), digest);
      if ItemRows(uuid, prefix, utcNow, digest).Some? && last.Some? {
        var before := ItemRows(uuid, prefix, utcNow, digest).value;
        var rows := before + [last.value];
        forall k | 0 <= k < |imgs|
          ensures ItemRow(uuid, imgs[k], utcNow(k), digest) == Some(rows[k])
        {
          if k < |prefix| {
            assert imgs[k] == prefix[k];
          }
        }
      }
    }
  }

  /** The rows can be built exactly when the report renders: an item's hash
      is computed from the same decoding the renderer performed. */
  lemma RowsExistIffRendered(codigo: string, responsavel: string, observacoes: Option<string>,
                             imgs: seq<ImagemRessalva>, agora: string, height: int,
                             uuid: string, utcNow: nat -> string, digest: Bytes -> string)
    ensures RessalvasDocument(codigo, responsavel, observacoes, imgs, agora, height).Ok?
      <==> ItemRows(uuid, imgs, utcNow, digest).Some?
  {
    RessalvasRenders(codigo, responsavel, observacoes, imgs, agora, height);
    ItemRowsShape(uuid, imgs, utcNow, digest);
  }

  /** Once a row cannot be built for a prefix, the whole list has none. */
  lemma {:induction false} ItemRowsNoneSticks(uuid: string, imgs: seq<ImagemRessalva>, k: nat, utcNow: nat -> string, digest: Bytes -> string)
    requires k <= |imgs|
    requires ItemRows(uuid, imgs[..k], utcNow, digest).None?
    ensures ItemRows(uuid, imgs, utcNow, digest).None?
    decreases |imgs| - k
  {
    if k < |imgs| {
      var next := imgs[..k + 1];
      assert next[..|next| - 1] == imgs[..k];
      ItemRowsNoneSticks(uuid, imgs, k + 1, utcNow, digest);
    } else {
      assert imgs[..k] == imgs;
    }
  }

  /** The item loop of `salvar_ressalvas`. */
  method BuildItens(uuid: string, imgs: seq<ImagemRessalva>, utcNow: nat -> string, digest: Bytes -> string) returns (r: Option<seq<ItemRessalva>>)
    ensures r == ItemRows(uuid, imgs, utcNow, digest)
  {
    var itens := [];
    var i := 0;
    while i < |imgs|
      invariant 0 <= i <= |imgs|
      invariant ItemRows(uuid, imgs[..i], utcNow, digest) == Some(itens)
    {
      var next := imgs[..i + 1];
      assert next[..|next| - 1] == imgs[..i];
      var row := ItemRow(uuid, imgs[i], utcNow(i), digest);
      if row.None? {
        ItemRowsNoneSticks(uuid, imgs, i + 1, utcNow, digest);
        return None;
      }
      itens := itens + [row.value];
      i := i + 1;
    }
    assert imgs[..i] == imgs;
    r := Some(itens);
  }

  const InternalPrefix: string := "Erro interno ao salvar ressalvas: "
  const EmptyUrlMessage: string := "Falha no upload do PDF"
  /** Stands for the client's message when `.single()` does not see exactly
      one row; the route turns it into its internal error. The real text
      belongs to the client library, so contracts state only the prefix. */
  const MultipleRowsMessage: string := "JSON object requested, multiple (or no) rows returned"
  const RegisteredStatus: string := "RESSALVAS_REGISTRADAS"

  /** The row update of step 6: status, report URL and update time are
      set, and every other column, `criado_em` included, is kept. */
  function Marked(p: Processo, url: string, stamp: string): (r: Processo)
    ensures r.status == RegisteredStatus && r.pdfRessalvas == Some(url) && r.atualizadoEm == Some(stamp)
    ensures r.(status := p.status, pdfRessalvas := p.pdfRessalvas, atualizadoEm := p.atualizadoEm) == p
  {
    p.(status := RegisteredStatus, pdfRessalvas := Some(url), atualizadoEm := Some(stamp))
  }

  function RessalvasFolder(uuid: string): string
  {
    uuid + "/ressalvas"
  }

  /** The steps of `salvar_ressalvas` once the process row `uuid` is found:
      the report is rendered and uploaded, the item rows are inserted and
      the process is marked. */
  method PublishRessalvas(ledger: Ledger, store: BlobStore, req: RessalvasRequest, uuid: string, agora: string,
                          utcNow: nat -> string, fileId: string, height: int,
                          pdfBytes: Document -> Bytes, digest: Bytes -> string) returns (r: Result<string>)
    modifies ledger, store
    ensures store.reachable == old(store.reachable)
    ensures var doc := RessalvasDocument(req.processoId, req.responsavel, req.observacoes, req.imagens, agora, height);
      doc.Err? ==> r == Err(doc.error) && store.objects == old(store.objects)
    ensures r.Err? ==> ledger.processos == old(ledger.processos) && ledger.ressalvasItens == old(ledger.ressalvasItens)
    ensures var doc := RessalvasDocument(req.processoId, req.responsavel, req.observacoes, req.imagens, agora, height);
      var path := Upload.StorePath(RessalvasFolder(uuid), fileId);
      doc.Ok? && !(old(store.reachable) && path !in old(store.objects)) ==>
        && store.objects == old(store.objects) && r.Err? && r.error.status == 500
        && StartsWith(r.error.detail, InternalPrefix + Upload.FailurePrefix)
    ensures var doc := RessalvasDocument(req.processoId, req.responsavel, req.observacoes, req.imagens, agora, height);
      var path := Upload.StorePath(RessalvasFolder(uuid), fileId);
      doc.Ok? && old(store.reachable) && path !in old(store.objects) && store.publicUrl(path) == "" ==>
        r == Err(HttpError(500, EmptyUrlMessage)) && store.objects == old(store.objects)[path := pdfBytes(doc.value)]
    ensures var doc := RessalvasDocument(req.processoId, req.responsavel, req.observacoes, req.imagens, agora, height);
      var path := Upload.StorePath(RessalvasFolder(uuid), fileId);
      r.Ok? <==>
        && doc.Ok? && old(store.reachable) && path !in old(store.objects) && store.publicUrl(path) != ""
        && ItemRows(uuid, req.imagens, utcNow, digest).Some?
    ensures var doc := RessalvasDocument(req.processoId, req.responsavel, req.observacoes, req.imagens, agora, height);
      var path := Upload.StorePath(RessalvasFolder(uuid), fileId);
      r.Ok? ==>
        && r.value == store.publicUrl(path)
        && store.objects == old(store.objects)[path := pdfBytes(doc.value)]
        && ledger.ressalvasItens == old(ledger.ressalvasItens) + ItemRows(uuid, req.imagens, utcNow, digest).value
        && |ledger.processos| == |old(ledger.processos)|
        && forall k :: 0 <= k < |ledger.processos| ==>
             ledger.processos[k] == if old(ledger.processos)[k].id == uuid
                                    then Marked(old(ledger.processos)[k], r.value, utcNow(|req.imagens|))
                                    else old(ledger.processos)[k]
  {
    var doc := RenderRessalvas(req.processoId, req.responsavel, req.observacoes, req.imagens, agora, height);
    if doc.Err? {
      return Err(doc.error);
    }
    var bytes := pdfBytes(doc.value);
    var payload := Codec.PdfDataUrl(bytes);
    Codec.StripHeaderRoundTrip(bytes);
    var up := Upload.UploadPdf(store, payload, RessalvasFolder(uuid), fileId, Base64.Decode);
    if up.UploadFailed? {
      StartsWithPrepend(InternalPrefix, up.message, Upload.FailurePrefix);
      return Err(HttpError(500, InternalPrefix + up.message));
    }
    if up.url == "" {
      return Err(HttpError(500, EmptyUrlMessage));
    }
    var itens := BuildItens(uuid, req.imagens, utcNow, digest);
    if itens.None? {
      return Err(HttpError(500, InternalPrefix + Codec.DecoderMessage));
    }
    if itens.value != [] {
      ledger.InsertItens(itens.value);
    }
    var stamp := utcNow(|req.imagens|);
    var url := up.url;
    ledger.UpdateProcessos((p: Processo) => p.id == uuid, (p: Processo) => Marked(p, url, stamp));
    r := Ok(up.url);
  }

  /** `salvar_ressalvas`: looks the process up by its human code, renders
      the report, uploads it, records the items and marks the process.
      `agora` is the local time the report prints, `fileId` the fresh upload
      name, `pdfBytes` the PDF serialisation of a document. */
  method SalvarRessalvas(ledger: Ledger, store: BlobStore, req: RessalvasRequest, agora: string,
                         utcNow: nat -> string, fileId: string, height: int,
                         pdfBytes: Document -> Bytes, digest: Bytes -> string) returns (r: Result<string>)
    modifies ledger, store
    ensures store.reachable == old(store.reachable)
    ensures var rows := WithCodigo(old(ledger.processos), req.processoId);
      |rows| != 1 ==> r.Err? && r.error.status == 500 && StartsWith(r.error.detail, InternalPrefix)
    ensures var rows := WithCodigo(old(ledger.processos), req.processoId);
      var doc := RessalvasDocument(req.processoId, req.responsavel, req.observacoes, req.imagens, agora, height);
      (|rows| != 1 || doc.Err?) ==> store.objects == old(store.objects) && (doc.Err? && |rows| == 1 ==> r == Err(doc.error))
    ensures r.Err? ==> ledger.processos == old(ledger.processos) && ledger.ressalvasItens == old(ledger.ressalvasItens)
    ensures var rows := WithCodigo(old(ledger.processos), req.processoId);
      var doc := RessalvasDocument(req.processoId, req.responsavel, req.observacoes, req.imagens, agora, height);
      |rows| == 1 && doc.Ok? ==>
        var path := Upload.StorePath(RessalvasFolder(rows[0].id), fileId);
        !(old(store.reachable) && path !in old(store.objects)) ==>
          && store.objects == old(store.objects) && r.Err? && r.error.status == 500
          && StartsWith(r.error.detail, InternalPrefix + Upload.FailurePrefix)
    ensures var rows := WithCodigo(old(ledger.processos), req.processoId);
      var doc := RessalvasDocument(req.processoId, req.responsavel, req.observacoes, req.imagens, agora, height);
      |rows| == 1 && doc.Ok? ==>
        var path := Upload.StorePath(RessalvasFolder(rows[0].id), fileId);
        old(store.reachable) && path !in old(store.objects) && store.publicUrl(path) == "" ==>
          r == Err(HttpError(500, EmptyUrlMessage)) && store.objects == old(store.objects)[path := pdfBytes(doc.value)]
    ensures var rows := WithCodigo(old(ledger.processos), req.processoId);
      var doc := RessalvasDocument(req.processoId, req.responsavel, req.observacoes, req.imagens, agora, height);
      r.Ok? <==>
        && |rows| == 1 && doc.Ok? && old(store.reachable)
        && Upload.StorePath(RessalvasFolder(rows[0].id), fileId) !in old(store.objects)
        && store.publicUrl(Upload.StorePath(RessalvasFolder(rows[0].id), fileId)) != ""
        && ItemRows(rows[0].id, req.imagens, utcNow, digest).Some?
    ensures var rows := WithCodigo(old(ledger.processos), req.processoId);
      var doc := RessalvasDocument(req.processoId, req.responsavel, req.observacoes, req.imagens, agora, height);
      r.Ok? ==>
        var uuid := rows[0].id;
        var path := Upload.StorePath(RessalvasFolder(uuid), fileId);
        && r.value == store.publicUrl(path)
        && store.objects == old(store.objects)[path := pdfBytes(doc.value)]
        && ledger.ressalvasItens == old(ledger.ressalvasItens) + ItemRows(uuid, req.imagens, utcNow, digest).value
        && |ledger.processos| == |old(ledger.processos)|
        && forall k :: 0 <= k < |ledger.processos| ==>
             ledger.processos[k] == if old(ledger.processos)[k].id == uuid
                                    then Marked(old(ledger.processos)[k], r.value, utcNow(|req.imagens|))
                                    else old(ledger.processos)[k]
  {
    var rows := ledger.SelectByCodigo(req.processoId);
    if |rows| != 1 {
      return Err(HttpError(500, InternalPrefix + MultipleRowsMessage));
    }
    r := PublishRessalvas(ledger, store, req, rows[0].id, agora, utcNow, fileId, height, pdfBytes, digest);
  }
}
