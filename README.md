# Delivery-document pipeline: a Dafny model

The service handles the paperwork for delivering a job to a client. It has
four stages and one upload helper:

1. **`salvar_termo`** (`app/routers/termo.py`) checks the request. It gives
   the process a human code `FIRSTNAME_CPF3_YYYY-MM-DD_SUFX` and renders the
   delivery term, a single page holding the photo. It then uploads that
   page and any extra images to the storage bucket and inserts the process
   row.
2. **`salvar_ressalvas`** (`app/routers/ressalvas.py`) finds the process by
   its human code. It renders the exceptions report (one block per item,
   with a page break once the cursor drops below 220), uploads it, inserts
   one `ressalvas_itens` row per item with the SHA-256 of its image, and
   marks the process.
3. **`finalizar_nps`** (`app/routers/nps.py`) checks that the term and the
   report exist locally. It renders the satisfaction survey (with a page
   break below 80 and feedback lines cut to 110 characters), appends term,
   report and survey into one PDF, uploads it and marks the process
   finished.
4. **`gerar_pdf_final`** (`app/routers/finalizacao.py`) is the other
   finalisation route. It reads `nps.json`, renders a one-page survey,
   copies the pages of the three documents into one PDF, uploads it,
   records it and deletes the temporary survey file.
5. **`upload_pdf`** (`app/services/upload.py`) strips a data-URL header,
   decodes base 64 and stores the bytes under a fresh name, never
   overwriting. It returns the public URL.

The model has one module per concern:

| Module | File | Contents |
|---|---|---|
| `Common` | `common.dfy` | bytes, `Option`, `Result`, the HTTP error |
| `Text` | `text.dfy` | the Python string operations the handlers use (`strip`, `split`, `upper`, `capitalize`, slicing, `re.sub`, date formats) |
| `Base64` | `base64.dfy` | RFC 4648 section 4 encoding and strict decoding |
| `Codec` | `codec.dfy` | data URLs, `normalize_base64`, `decode_base64_image`, `gerar_hash_imagem` |
| `Layout` | `layout.dfy` | the ReportLab canvas: a document is a sequence of pages, a page is the sequence of placed items |
| `Merge` | `merge.dfy` | PyPDF2's `PdfMerger.append` and `PdfWriter.add_page` |
| `Stores` | `stores.dfy` | the bucket, the local file system and the two ledger tables, as objects with methods |
| `Upload` | `upload.dfy` | `upload_pdf` |
| `Termo`, `Ressalvas`, `Nps`, `Finalizacao` | one file each | the four route handlers |

Each handler and each drawing routine is a `method`, proved against a
specification function. Those are the layout folds `ItemsLayout`,
`Ratings`/`Lines`/`Feedback` and `SurveyPage`, and the step functions
`ExtrasFold` and `Assembled`. The properties are lemmas about those
functions. The file steps of the two finalisation handlers are stated over a
record `Paths` of the handler's input and output paths and proved for any
record whose paths are pairwise different; `PathsDistinct` shows that the
paths the handlers build from a process id always are. Things outside the program are parameters:
- the page height;
- the SHA-256 digest;
- `uuid4` values;
- the random code suffix;
- the clocks;
- the PDF byte serialisation.

In a few places the model follows the code where the surrounding
description differs:
- `salvar_ressalvas` uses `.single()`, which raises unless exactly one row
  matches. The route's generic handler turns that into a 500 with an
  internal-error message, whether no row or several rows match. So the
  route's own 404 branch for a missing process is never reached, and the
  model has no 404 for this route.
- The finalisation handlers pass a local file path to `upload_pdf`, which
  expects a data URL. The model keeps that call as written. The decoding of
  the path is an opaque parameter `pathDecode`, and no round trip is claimed
  for it.
- In `salvar_termo`, an extra image without `item` is not merely skipped.
  Both the `except` branch and the recording read `img_data["item"]`, so the
  resulting `KeyError` escapes to the outer handler, giving 500 with
  "Erro interno: 'item'".
- The term and exceptions handlers key the process by `id`/`codigo`. The
  finalisation handlers key it by `processo_id`. Each is modelled as that
  handler does it.

## Model

| member | source | states |
|---|---|---|
| Base64.Encode | app/routers/ressalvas.py:209-212 | the encoding has length a multiple of 4, uses only alphabet letters and padding, and contains no comma |
| Base64.DecodeEncode | app/services/upload.py:21 | decoding the RFC 4648 encoding of any octets gives those octets back |
| Base64.Decode | app/services/upload.py:21 | a decodable text is a whole number of groups of alphabet letters and padding, and decodes to three octets per group, less up to two for padding in the last group |
| Base64.DecodeConcat | app/services/upload.py:21 | decoding a well-formed group followed by a decodable rest gives the group's octets followed by the rest's |
| Codec.Normalize | app/routers/ressalvas.py:46-51 | the result is the stripped payload without newlines and spaces, padded with the fewest `=` that make its length a multiple of 4 |
| Codec.PadToFour | app/routers/ressalvas.py:48-50 | the text is kept as a prefix and followed only by `=`, fewer than four of them, so that the length becomes a multiple of 4; empty text stays empty |
| Codec.NormalizedEnds | app/routers/ressalvas.py:47 | the normalised text neither starts nor ends with whitespace |
| Codec.NormalizeIdempotent | app/routers/ressalvas.py:46-51 | normalising twice is the same as normalising once |
| Codec.NormalizeEncoded | app/routers/ressalvas.py:46-51 | a base 64 encoding is left unchanged by normalisation |
| Codec.FirstComma | app/services/upload.py:18-19 | the index is a comma and no earlier character is one, which is where `split(",", 1)` cuts |
| Codec.AfterHeader | app/services/upload.py:18-19 | after a comma-free header and a comma, the split keeps exactly the payload |
| Codec.DecodeImage | app/routers/ressalvas.py:54-67 | every failure has status 400 and a detail that starts with `Imagem Base64 inválida: `; a payload without a comma fails with exactly the invalid-format message |
| Codec.DecodeImageCases | app/routers/ressalvas.py:54-67 | with a comma, a payload whose normalised text after the first comma decodes gives exactly those octets, one that does not decode fails with a 400 whose detail starts with `Imagem Base64 inválida: ` and is not the missing-comma message, and success implies both |
| Codec.DecodeImageIgnoresHeader | app/routers/ressalvas.py:56-59 | only the text after the first comma decides the decoding |
| Codec.DecodeImageOfDataUrl | app/routers/ressalvas.py:54-62 | a data URL built from an encoding decodes to the encoded octets |
| Codec.DecodeImageOfWrappedDataUrl | app/routers/ressalvas.py:46-62 | an encoding broken onto two lines by a newline still decodes to the encoded octets |
| Codec.RemoveLineBreak | app/routers/ressalvas.py:47 | removing newlines from two newline-free pieces joined by a newline joins the pieces |
| Codec.CleanedLineBreak | app/routers/ressalvas.py:47 | cleaning whitespace-free text broken by one inner newline gives back the unbroken text |
| Codec.NormalWithoutSpace | app/routers/ressalvas.py:46-51 | text without whitespace whose length is a multiple of 4 is unchanged by normalisation |
| Codec.DecodableIsNormal | app/routers/ressalvas.py:46-62 | text the strict decoder accepts is unchanged by normalisation, so the two decoding paths agree on it |
| Codec.HashImage | app/routers/ressalvas.py:70-74 | the hash exists exactly when the image decodes, and is then the digest of the decoded octets |
| Codec.HashDependsOnlyOnBytes | app/routers/ressalvas.py:70-74 | two payloads with the same decoded octets get the same hash |
| Codec.StripHeader | app/services/upload.py:18-19 | without a comma the text is kept; with one, only what follows the first comma |
| Codec.StripHeaderRoundTrip | app/routers/ressalvas.py:209-218 | the bytes `upload_pdf` decodes from a PDF or PNG data URL are the bytes that were encoded |
| Layout.NewPageKeepsPlaced | app/routers/nps.py:79 | a page break moves no placed item |
| Layout.TextsAppend | app/routers/nps.py:76 | drawing a string extends the drawn strings by it |
| Layout.TextsConcat | app/routers/ressalvas.py:123-144 | the strings of two stretches of items are those of the first, then those of the second |
| Layout.TextsOfText | app/routers/ressalvas.py:92-116 | items that are all text give their strings one for one |
| Layout.PlacedPlace | app/routers/nps.py:76 | placing an item adds it after everything placed so far |
| Layout.PlacedExtend | app/routers/ressalvas.py:123-144 | items added to the open page follow everything placed so far |
| Layout.Canvas.DrawString | app/routers/nps.py:62 | the string is placed at its position on the open page, after everything already there; closed pages are unchanged |
| Layout.Canvas.DrawImage | app/routers/termo.py:90-97 | the picture is placed with its position, size and octets on the open page; closed pages are unchanged |
| Layout.Canvas.FillPage | app/routers/termo.py:86-87 | the coloured background is placed on the open page; closed pages are unchanged |
| Layout.Canvas.ShowPage | app/routers/nps.py:79 | the open page is closed, whatever it holds, and an empty page begins |
| Layout.Canvas.Save | app/routers/nps.py:104-105 | the saved document is the closed pages, plus the open page when it holds anything |
| Text.Strip | app/routers/nps.py:32 | the result is a contiguous slice of the input, everything cut off on either side is whitespace, and the result neither starts nor ends with whitespace |
| Text.Split | app/routers/nps.py:94 | there is at least one piece, no piece contains the separator, and joining the pieces with it gives the input back |
| Text.SplitFour | app/routers/termo.py:66 | four separator-free fields joined by the separator split back into those four fields |
| Text.Truncate | app/routers/nps.py:95 | the result is the input's prefix of length at most `n`, the whole input when it is short enough, and exactly `n` long otherwise |
| Text.Upper | app/routers/finalizacao.py:57 | same length, every character mapped to upper case |
| Text.Capitalize | app/routers/finalizacao.py:63 | same length, first character in upper case and the rest in lower case |
| Text.IntToString | app/routers/nps.py:66 | the text is non-empty and starts with a minus sign exactly for negative numbers; the rest is digits whose decimal value is the absolute value of the number |
| Text.NatToString | app/routers/nps.py:66 | the text is non-empty, all digits, has decimal value `n`, and has a leading zero only when it is `0` |
| Text.NatToStringWidth | app/routers/termo.py:63 | a number below `10^w` takes at most `w` digits |
| Text.ZeroPad | app/routers/termo.py:63 | the text is all digits with decimal value `n`, and exactly `width` long when `n` fits in that many digits |
| Text.IsoDateFields | app/routers/termo.py:63 | `%Y-%m-%d`: ten characters, dashes at 4 and 7, digits elsewhere, and the three fields have the values of year, month and day |
| Text.DayMonthYearFields | app/routers/ressalvas.py:135 | `%d/%m/%Y`: ten characters, slashes at 2 and 5, digits elsewhere, and the three fields have the values of day, month and year |
| Text.DigitsOnly | app/routers/termo.py:45 | the result holds only digits, no longer than the input, and a digit occurs in it exactly when it occurs in the input |
| Text.DigitsOnlyConcat | app/routers/termo.py:45 | removing non-digits works piecewise over a concatenation |
| Text.DigitsOnlyDeletes | app/routers/termo.py:45 | one character between two pieces: a non-digit vanishes, a digit stays between what the pieces clean to |
| Text.UpperLettersOnly | app/routers/termo.py:61 | the result holds only upper-case letters and is no longer than the input |
| Text.UpperLettersOnlyConcat | app/routers/termo.py:61 | removing all but `A`-`Z` works piecewise over a concatenation |
| Text.UpperLettersOnlyAround | app/routers/termo.py:61 | a character between two pieces is deleted unless it is `A`-`Z`, and then kept in its place |
| Text.UpperLettersOnlyOfUpper | app/routers/termo.py:61 | text made only of `A`-`Z` is kept whole |
| Text.FirstWord | app/routers/termo.py:61 | `split()[0]`: the longest space-free prefix of the text after its leading whitespace, non-empty when the text is not blank |
| Text.FirstWordOf | app/routers/termo.py:61 | leading spaces, a space-free word and then a space or the end give exactly that word |
| Text.RemoveAll | app/routers/ressalvas.py:47 | the result has every character of the input except the removed one, and keeps a first character that is not removed |
| Text.RemoveAllConcat | app/routers/ressalvas.py:47 | removing a character works piecewise over a concatenation |
| Text.JoinFour | app/routers/termo.py:66 | joining four fields puts the separator between consecutive fields |
| Stores.BlobStore.Upload | app/services/upload.py:32-39 | a write succeeds exactly when the service is reachable and the path is free; an existing object is never overwritten; a refused write changes nothing |
| Stores.FileSystem.MakeDirs | app/routers/nps.py:51 | succeeds when the path is absent or a directory, and creates the directory when it is absent |
| Stores.FileSystem.Remove | app/routers/finalizacao.py:120 | removes a file; fails on a missing path or a directory |
| Stores.WithCodigo | app/routers/ressalvas.py:179-186 | every row returned has the code and is in the table, and the result is empty exactly when no row has the code; how many and in which order are the two lemmas below |
| Stores.WithCodigoCounts | app/routers/ressalvas.py:179-186 | every row with the code comes back as often as the table holds it, and no other row comes back |
| Stores.WithCodigoConcat | app/routers/ressalvas.py:179-186 | the matches keep table order: those of an earlier stretch of the table come before those of a later one |
| Stores.WithCodigoAppend | app/routers/termo.py:150-160 | a row appended to the table is found by its code after the older rows with that code |
| Stores.UpdateWhere | app/routers/ressalvas.py:251-255 | the selected rows are changed, the others kept, and no row is added or removed |
| Stores.FileSystem.Exists | app/routers/nps.py:45-49 | the answer is whether anything, file or directory, is at the path |
| Stores.FileSystem.WritePdf | app/routers/nps.py:104-105 | the write fails exactly when a directory stands at the path, and then changes nothing; otherwise the path holds the document and no other path changes |
| Stores.FileSystem.ReadPdf | app/routers/finalizacao.py:80-82 | a document is read exactly when the path holds a PDF file, and it is that file's pages |
| Stores.FileSystem.ReadNpsJson | app/routers/finalizacao.py:41-42 | survey data is read exactly when the path holds `nps.json` data, and it is that record |
| Stores.Ledger.SelectByCodigo | app/routers/ressalvas.py:179-186 | the rows returned are exactly those with the code, in table order |
| Stores.Ledger.InsertProcesso | app/routers/termo.py:150-160 | the row is appended to `processos`, and `ressalvas_itens` is unchanged |
| Stores.Ledger.InsertItens | app/routers/ressalvas.py:245-246 | the rows are appended to `ressalvas_itens` in order, and `processos` is unchanged |
| Stores.Ledger.UpdateProcessos | app/routers/ressalvas.py:251-255 | exactly the selected rows of `processos` are changed, in place, and `ressalvas_itens` is unchanged |
| Stores.Join | app/routers/nps.py:39-43 | `os.path.join`: an absolute second part replaces the first; otherwise a slash is put between them when the first is non-empty and does not end in one, and the two are joined as they are when the first is empty or ends in a slash |
| Stores.EndingsDiffer | app/routers/nps.py:39-56 | paths whose endings differ at the same distance from the end are different paths |
| Upload.StorePath | app/services/upload.py:26-27 | the path is the folder, a slash, the name and `.pdf` |
| Upload.StorePathInjective | app/services/upload.py:26-27 | different fresh names give different paths, so every call targets a new path |
| Upload.UploadPdf | app/services/upload.py:7-49 | success exactly when the stripped payload decodes, the store is reachable and the fresh path is free; the object is then stored at that path and its public URL returned; every failure changes nothing and carries the `Falha no upload do PDF: ` prefix |
| Merge.MergedPages | app/routers/nps.py:112-116 | the merged page count is the sum, and the term, report and survey pages sit in that order at their own offsets |
| Merge.PdfWriter.AddPage | app/routers/finalizacao.py:83 | the page is added after the pages already there |
| Merge.PdfWriter.Append | app/routers/nps.py:113 | all pages of the document are added, in order, after the pages already there |
| Merge.PdfWriter.CopyPages | app/routers/finalizacao.py:80-95 | the page loop adds exactly the document's pages, in order |
| Merge.AppendThree | app/routers/nps.py:112-117 | three `append` calls on a fresh merger give the term, report and survey pages in order |
| Merge.CopyThree | app/routers/finalizacao.py:77-98 | three page-copy loops on a fresh writer give the term, report and survey pages in order |
| Termo.Validation | app/routers/termo.py:45-56 | every rejection is a 400; the checks run in source order (CPF, name, comma, delivery status), the first failing one decides the message, and the request passes exactly when all pass |
| Termo.CpfLimpoOfDigits | app/routers/termo.py:45 | a CPF already made of digits is kept whole |
| Termo.CpfPunctuationIgnored | app/routers/termo.py:45 | cleaning deletes a non-digit wherever it stands and keeps a digit in its place between what the rest cleans to |
| Termo.FirstName | app/routers/termo.py:61 | the name part of the code holds only upper-case ASCII letters |
| Termo.FirstNameOfWord | app/routers/termo.py:61 | for leading spaces, a first word and the rest of the name, the name part is the first word in upper case with everything but `A`-`Z` removed, and the whole upper-cased word when it is all letters |
| Termo.LastThree | app/routers/termo.py:62 | the last three characters of the CPF, or all of them when there are fewer |
| Termo.HumanCode | app/routers/termo.py:61-66 | the code is the name part, the last three CPF digits, the ISO date and the suffix, joined by `_` |
| Termo.HumanCodeFields | app/routers/termo.py:61-66 | splitting the code on `_` gives back its four fields: name, CPF digits, ISO date and suffix |
| Termo.HumanCodeInjective | app/routers/termo.py:61-66 | equal codes have equal name parts, CPF parts, dates and suffixes |
| Termo.PhotoDecoded | app/routers/termo.py:72-76 | a photo the strict decoder accepts decodes to the same octets on the exceptions route's normalising path |
| Termo.PhotoOfDataUrl | app/routers/termo.py:72-76 | a photo sent as a data URL decodes to its octets |
| Termo.RenderTermo | app/routers/termo.py:81-100 | the term is one page whose last item is the photo covering the whole page |
| Termo.ExtraBytes | app/routers/termo.py:130-131 | an entry without an image, or whose image has no comma, decodes to nothing |
| Termo.ExtraBytesDecoded | app/routers/termo.py:130-131 | decoded octets of an entry are what the normalising decoder gives for the same image |
| Termo.ExtraStepRecords | app/routers/termo.py:129-143 | one pass of the loop appends the record of its `item` with the URL of its path exactly when the image decodes, the bucket is reachable, the path is free, the URL is non-empty and the entry has an `item`; otherwise the records are kept |
| Termo.ExtraStepState | app/routers/termo.py:129-145 | one pass draws a name exactly for a decodable image, stores its octets exactly when the bucket accepts them at a free path, and fails exactly when the entry lacks `item` and the pass reads it, which is every case except an image stored with an empty URL |
| Termo.ExtraStepStores | app/routers/termo.py:129-145 | one pass keeps every stored object, and a new object holds the image's decoded octets |
| Termo.ExtrasFold | app/routers/termo.py:126-145 | a failed loop stays as it is, and at most one name is drawn per entry |
| Termo.ExtrasUrlsGrow | app/routers/termo.py:139-143 | the records after any prefix of the entries are a prefix of the final records |
| Termo.ExtrasRecordAt | app/routers/termo.py:128-145 | entry `k` adds exactly its own record when the loop is running and the entry is recorded by its pass, and nothing otherwise; that state stays at the front of the final records, so they follow the order of the entries |
| Termo.ExtrasStoreDecoded | app/routers/termo.py:126-145 | objects already in the bucket are kept, and every new object holds the decoded octets of one of the extra images |
| Termo.ExtrasWithItemsSucceed | app/routers/termo.py:139-145 | when every extra image has an `item`, the loop runs to the end without failing |
| Termo.ExtrasRecorded | app/routers/termo.py:139-143 | the recorded images extend the starting list, at most one per entry, each with a non-empty URL and the `item` of an entry |
| Termo.ExtrasFailStops | app/routers/termo.py:144-145 | once the loop fails it ends in that state |
| Termo.UploadExtra | app/routers/termo.py:129-145 | one pass of the loop leaves the bucket, drawn names, recorded images and failure flag as one step of the specification fold, and the bucket's reachability is unchanged |
| Termo.UploadExtras | app/routers/termo.py:126-145 | the loop leaves the bucket, the drawn names, the recorded images and the failure flag as the specification fold does |
| Termo.FinishTermo | app/routers/termo.py:126-174 | the extra images are stored as the specification fold says; a missing `item` is the internal error and inserts nothing; otherwise exactly the process row with the term URL and the recorded images is inserted and the human code returned |
| Termo.PublishTermo | app/routers/termo.py:81-174 | a refused upload is a 500 with both message prefixes that stores nothing; an empty URL is a 500 after storing the term; otherwise the extra images are stored and the result is the missing-`item` error or the human code; success inserts exactly the term row and every error leaves the ledger unchanged |
| Termo.SalvarTermo | app/routers/termo.py:39-183 | a validation error or an undecodable photo stores nothing; a refused upload is a 500 with both message prefixes; an empty URL is a 500 after storing the term; otherwise the extra images are stored, and either the missing-`item` error or the human code is returned; on success exactly one row is inserted and every error leaves the ledger unchanged |
| Termo.TermoRow | app/routers/termo.py:150-160 | the inserted row has the process UUID in `processo_id` and the human code in `codigo`, the cleaned all-digit CPF, status `TERMO_GERADO`, the client name, delivery status and term URL of the request, `imagens_termo` None exactly when no image was recorded and the records otherwise, and no report, final PDF or timestamps yet |
| Termo.TermoRowFoundByCode | app/routers/termo.py:150-160 | the row the term stage inserts is the one the exceptions stage finds by its code |
| Ressalvas.HeaderLayout | app/routers/ressalvas.py:92-116 | the header leaves 4 items (6 with observations, which sit at 100 below the top) and the cursor 85 below the top (125 with observations) |
| Ressalvas.ItemLines | app/routers/ressalvas.py:123-144 | an item block starts with its numbered label, ends with the approval line, and has 3 lines (4 with a deadline) |
| Ressalvas.ItemBlockShape | app/routers/ressalvas.py:118-161 | one item block closes the page exactly when the cursor is below 220, puts its lines after what the open page held (from the top after a break), drops the cursor by the item's cost, and fails only with the decoder's error for its image |
| Ressalvas.ItemLinesSpaced | app/routers/ressalvas.py:123-144 | the lines of an item block are text at the left margin, 15 units apart |
| Ressalvas.PictureAt | app/routers/ressalvas.py:146-161 | placing an image succeeds exactly when the data decodes |
| Ressalvas.Block | app/routers/ressalvas.py:123-161 | the block drawn at the cursor succeeds exactly when its image, if any, decodes |
| Ressalvas.ItemBlock | app/routers/ressalvas.py:118-161 | one item block (break test below 220, then the block) succeeds exactly when its image, if any, decodes |
| Ressalvas.ItemsLayout | app/routers/ressalvas.py:118-161 | the item loop as a fold over the items, labelled from 1; its properties are `Ressalvas.ItemsLayoutTexts` and the three lemmas below |
| Ressalvas.ItemsLayoutPages | app/routers/ressalvas.py:118-121 | after the items, the cursor and the number of closed pages are those given by the break rule below 220 |
| Ressalvas.ItemsLayoutSucceeds | app/routers/ressalvas.py:146-147 | the items lay out exactly when every image decodes; otherwise the error is a 400 |
| Ressalvas.ItemsLayoutErrorSticks | app/routers/ressalvas.py:146-147 | the first undecodable image ends the rendering with its error |
| Ressalvas.RessalvasPageCount | app/routers/ressalvas.py:118-164 | the report has one page more than the number of breaks |
| Ressalvas.RessalvasRenders | app/routers/ressalvas.py:81-166 | the report renders exactly when every image decodes; otherwise it fails with a 400 |
| Ressalvas.ItemLinesTexts | app/routers/ressalvas.py:123-144 | the strings of an item block are its label `Item idx: …`, description, deadline when present and approval, whatever its height |
| Ressalvas.PlainBlockPlaced | app/routers/ressalvas.py:160-161 | a block without an image succeeds and places just its lines after everything before it |
| Ressalvas.PictureBlockSheet | app/routers/ressalvas.py:146-159 | a block whose image decodes places its lines and then the 200 by 150 picture whose top is at the cursor |
| Ressalvas.BlockPlaced | app/routers/ressalvas.py:123-161 | a block places its lines after everything placed before it, then at most one picture |
| Ressalvas.TextsBeforePicture | app/routers/ressalvas.py:146-159 | a picture after the lines adds no string |
| Ressalvas.BlockTexts | app/routers/ressalvas.py:123-161 | a block adds exactly its item's strings after all strings placed before it |
| Ressalvas.ItemBlockTexts | app/routers/ressalvas.py:118-161 | the same holds across the page break before the block |
| Ressalvas.ItemsLayoutTexts | app/routers/ressalvas.py:118-161 | the item loop adds the strings of every item in input order, the k-th labelled `Item k` |
| Ressalvas.HeaderLayoutTexts | app/routers/ressalvas.py:92-116 | the header prints title, code, responsible person and date, then the observations heading and text only when there are observations |
| Ressalvas.RessalvasTexts | app/routers/ressalvas.py:81-166 | the rendered report prints the header strings and then every item's strings, `Item 1` to `Item n` in input order, across its pages |
| Ressalvas.DrawPicture | app/routers/ressalvas.py:146-159 | drawing the image matches `PictureAt`, the decoder's error included |
| Ressalvas.DrawBlock | app/routers/ressalvas.py:123-161 | drawing the lines and image of one block matches `Block`, the decoder's error included |
| Ressalvas.DrawItem | app/routers/ressalvas.py:118-161 | the drawing of one item block, page break included, matches its specification, error included |
| Ressalvas.DrawLines | app/routers/ressalvas.py:123-144 | the text lines of one item block are added to the open page as specified, and closed pages are unchanged |
| Ressalvas.DrawHeader | app/routers/ressalvas.py:92-116 | drawing the header on a blank canvas gives the page and cursor the header layout specifies |
| Ressalvas.RenderRessalvas | app/routers/ressalvas.py:81-166 | the drawing loop produces the specified report, or the error of the first undecodable image |
| Ressalvas.ItemRow | app/routers/ressalvas.py:231-243 | an item row exists exactly when its image, if any, decodes; it carries the process id, item, description, ISO deadline, approval, the digest of the decoded image (or no hash) and its stamp |
| Ressalvas.ItemRows | app/routers/ressalvas.py:229-243 | when the rows exist there is one per item |
| Ressalvas.ItemRowsShape | app/routers/ressalvas.py:229-243 | the rows exist exactly when every image decodes, and then row `k` is the row of item `k`, stamped by the `k`-th clock call, in item order |
| Ressalvas.RowsExistIffRendered | app/routers/ressalvas.py:238-241 | hashing the images succeeds exactly when the report rendered, so the handler never fails between upload and insert |
| Ressalvas.BuildItens | app/routers/ressalvas.py:229-243 | the item loop yields the specified rows |
| Ressalvas.PublishRessalvas | app/routers/ressalvas.py:199-266 | a rendering error is returned and stores nothing; a refused upload is a 500 whose message starts with the internal-error and upload-failure prefixes and stores nothing; an empty URL is the 500 `Falha no upload do PDF` with the report already stored; every error leaves the ledger unchanged; success exactly when the report renders and the upload succeeds with a non-empty URL; the report bytes are then stored, one item row per item appended and exactly the row with that `id` marked |
| Ressalvas.Marked | app/routers/ressalvas.py:251-255 | the update sets status, report URL and update time, and keeps every other column, `criado_em` included |
| Ressalvas.SalvarRessalvas | app/routers/ressalvas.py:173-266 | unless exactly one row has the code, the `.single()` error is a 500 whose detail starts with `Erro interno ao salvar ressalvas: `; a rendering error is returned and stores nothing; with one matching row, a refused upload is a 500 whose message starts with the internal-error and upload-failure prefixes and stores nothing, and an empty URL is the 500 `Falha no upload do PDF` with the report already stored; every error leaves the ledger unchanged; success exactly when one row matches, the report renders, the upload succeeds with a non-empty URL; the report bytes are then stored, one item row per item appended and exactly the matching row marked |
| Nps.TruncatedLines | app/routers/nps.py:94-95 | one output line per input line, each at most 110 characters and a prefix of its input line, and the whole line when it is short enough |
| Nps.LinesTexts | app/routers/nps.py:94-100 | every line of a feedback text is drawn, in order, truncated, across page breaks |
| Nps.LineThenBreak | app/routers/nps.py:76-81 | after a line the cursor is at 80 or above, or back at the top; a page is closed exactly when the line leaves the cursor below 80 |
| Nps.LineThenBreakPlaced | app/routers/nps.py:94-100 | a line step adds exactly its text after everything placed, page break or not |
| Nps.Ratings | app/routers/nps.py:75-81 | the ratings loop as a fold; what it draws is `Nps.RatingsTexts` and where it leaves the cursor `Nps.RatingsStayAbove` |
| Nps.Lines | app/routers/nps.py:94-100 | the line loop of one feedback text as a fold; what it draws is `Nps.LinesTexts` |
| Nps.Feedback | app/routers/nps.py:84-102 | the feedback loop as a fold; what it draws is part of `Nps.NpsTexts` |
| Nps.RatingsTexts | app/routers/nps.py:75-81 | every rating is drawn, in order, as `key: value`, across page breaks |
| Nps.NpsTexts | app/routers/nps.py:60-105 | the survey holds title, score, rating heading, every rating, the feedback heading and every feedback title and truncated line, in that order |
| Nps.RatingsStayAbove | app/routers/nps.py:75-81 | with a top above 80, the break test leaves the cursor at 80 or above after the ratings |
| Nps.LinesStayAbove | app/routers/nps.py:94-100 | with a top above 80, the break test leaves the cursor at 80 or above after the lines of a feedback text |
| Nps.DrawRatings | app/routers/nps.py:75-81 | the rating loop leaves the canvas and cursor that the ratings fold gives from the starting ones |
| Nps.DrawTextLines | app/routers/nps.py:94-100 | the line loop of one feedback text leaves the canvas and cursor that the lines fold gives |
| Nps.DrawFeedback | app/routers/nps.py:84-102 | the feedback loop leaves the canvas and cursor that the feedback fold gives |
| Nps.RenderNps | app/routers/nps.py:57-105 | drawing on a fresh canvas yields the specified survey document |
| Nps.PathsDistinct | app/routers/nps.py:39-56 | for every process id, the term, report, final directory, survey file and merged file paths are pairwise different |
| Nps.AssembledOutcome | app/routers/nps.py:51-117 | for pairwise different paths (which the handler's are, by `Nps.PathsDistinct`), the file steps succeed exactly when the final directory is free or a directory, neither output file is a directory and both inputs are PDFs; the merged file then holds term, report and survey pages; every failure is a 500; no other path changes |
| Nps.Assembled | app/routers/nps.py:51-117 | the file steps as a function of the file system; what they do is `Nps.AssembledOutcome` |
| Nps.Assemble | app/routers/nps.py:51-117 | the directory, survey-write, read and merge steps leave the outcome and file system that the specification of the file steps gives |
| Nps.Finished | app/routers/nps.py:134-138 | the update sets status `finalizado`, the final URL and the finishing date, and keeps every other column |
| Nps.Publish | app/routers/nps.py:125-143 | a failed upload is the generic 500 and stores nothing; an empty URL is the final-upload 500 after the object is stored; neither updates the ledger; on success the object is stored and exactly the rows with that `processo_id` are marked finished |
| Nps.FinishNps | app/routers/nps.py:51-143 | a file-step failure is returned and stores nothing; then a failed upload is the generic 500 that stores nothing, an empty URL the final-upload 500 with the object already stored, and success exactly the remaining case; the object is then stored and exactly the rows with that `processo_id` are marked finished; every error leaves the ledger unchanged |
| Nps.FinalizarNps | app/routers/nps.py:29-143 | a blank id is a 400; a missing term, then a missing report, is a 404 with its own message; those cases touch no file and no object; a file-step failure is returned with the file system it leaves; then a failed upload is a 500 that stores nothing, an empty URL the final-upload 500 with the object already stored, and success exactly the remaining case; every error leaves the ledger unchanged |
| Finalizacao.RatingItems | app/routers/finalizacao.py:56-58 | one line per rating, 20 units apart, with the key in upper case |
| Finalizacao.EntryItems | app/routers/finalizacao.py:61-67 | a feedback entry is its capitalised title, and 18 units below it the text cut to its first 300 characters |
| Finalizacao.FeedbackItemsAt | app/routers/finalizacao.py:61-67 | feedback entry `i` is drawn at items `2i` and `2i + 1`, 48 units below the previous entry |
| Finalizacao.SurveyPage | app/routers/finalizacao.py:47-67 | the survey page; its contents are `Finalizacao.SurveyPageContents` |
| Finalizacao.SurveyPageContents | app/routers/finalizacao.py:47-67 | the page holds the two header lines, then every rating, then every feedback entry, each at its place |
| Finalizacao.DrawRatings | app/routers/finalizacao.py:56-58 | the cursor drops 20 per rating, closed pages are unchanged and the open page gains exactly the rating lines |
| Finalizacao.DrawFeedback | app/routers/finalizacao.py:61-67 | closed pages are unchanged and the open page gains exactly the feedback entries |
| Finalizacao.RenderSurvey | app/routers/finalizacao.py:44-70 | the survey has exactly one page, the specified one |
| Finalizacao.PathsDistinct | app/routers/finalizacao.py:18-39 | for every process id, no input path is an output path, and the output directory, temporary file and merged file are pairwise different |
| Finalizacao.AssembledSucceeds | app/routers/finalizacao.py:34-98 | for pairwise different paths, the file steps succeed exactly when the output directory is free or a directory, `nps.json` holds survey data, neither output file is a directory and both inputs are PDFs; every failure is a 500 |
| Finalizacao.AssembledMerges | app/routers/finalizacao.py:77-98 | for pairwise different paths, the merged file holds the term pages, the report pages and the survey page, so it has their page counts plus one |
| Finalizacao.AssembledFrame | app/routers/finalizacao.py:34-98 | only the output directory, the temporary file and the merged file can change |
| Finalizacao.Assembled | app/routers/finalizacao.py:34-98 | the file steps as a function of the file system; what they do is in the three lemmas above |
| Finalizacao.Assemble | app/routers/finalizacao.py:34-98 | the directory, read, survey-write and copy steps leave the outcome and file system that the specification of the file steps gives |
| Finalizacao.Finished | app/routers/finalizacao.py:109-115 | the update sets the final URL and status `finalizado`, and keeps every other column |
| Finalizacao.PublishFinal | app/routers/finalizacao.py:34-126 | a file-step failure is returned and stores nothing; a failed upload is a 500 that stores nothing and leaves the temporary and merged files as the file steps wrote them; success exactly when the file steps and the upload succeed, whatever the URL; then exactly the rows with that `processo_id` are marked, the temporary file is gone and every other path is as the file steps left it |
| Finalizacao.GerarPdfFinal | app/routers/finalizacao.py:15-126 | a missing term, report or `nps.json`, in that order, is a 404 with its own message and touches nothing; a file-step failure is returned; a failed upload is a 500 that stores nothing and leaves the files as the file steps wrote them; success exactly when the file steps and the upload succeed, whatever the URL; then exactly the rows with that `processo_id` are marked, the temporary file is gone, and the response names `entrega_final.pdf` and the URL |

## Left out

- PDF byte formats, fonts, colours and image decoding by ReportLab's
  `ImageReader` are not modelled. A document is its sequence of pages of
  placed items, and the PDF serialisation is the parameter `pdfBytes`. The
  model does not capture that `ImageReader` can reject decoded bytes that
  are not an image.
- The A4 page size is a pair of floats. The model takes the page height
  (and, for the term, the width) as an integer parameter.
- Python's `base64.b64decode` without `validate=True` discards characters
  outside the alphabet. `Base64.Decode` is the strict RFC 4648 decoder, so
  inputs that only the lenient decoder accepts are rejected in the model.
- `str.upper`, `str.capitalize`, `str.split()` and `\d`/`\D` are modelled on
  ASCII only. Unicode case mapping and digits are not.
- SHA-256, `uuid4`, `random.choices`, `datetime.now()` and
  `datetime.utcnow()` are parameters. `Termo.SalvarTermo` requires the
  suffix to be drawn from upper-case letters and digits, as
  `random.choices` guarantees.
- The `res.error` check after the term insert (app/routers/termo.py:162-166)
  is not modelled: the ledger insert in the model cannot fail.
- Codec.DecodeImageCases and Codec.DecodeImage state the detail of an
  undecodable payload only up to the prefix `Imagem Base64 inválida: `.
  The source appends `str()` of the decoder's `binascii.Error`, whose text
  depends on the input and the Python version: "Incorrect padding" for
  some payloads, a message about the number of data characters for
  others, such as `x,A`. In the body, the stand-in `DecoderMessage` takes
  its place.
- Ressalvas.SalvarRessalvas states the `.single()` failure only as a 500
  whose detail starts with `Erro interno ao salvar ressalvas: `. The text
  after it is `str()` of the database client's exception, which the client
  library fixes and the routes do not. In the body, the stand-in
  `MultipleRowsMessage` takes its place.
- Termo.ExtraImage takes every entry of `imagens` to be an object. An
  entry that is a string, a number, `null` or a list is not modelled. In
  the source it raises `TypeError` at app/routers/termo.py:130 and again
  in the `except` branch at :145. The request then ends in a 500
  `Erro interno: ` followed by that `TypeError`'s text. This is the path of
  an entry with neither key (`MissingItem`), except for the text after the
  prefix.
- Ressalvas.SalvarRessalvas: the route's 404 "Processo não encontrado"
  branch (app/routers/ressalvas.py:188-192) is not modelled. `.single()`
  already raises when no row matches, so that branch cannot be reached and
  the missing process is the internal 500.
- The `print` in the `except` branch of the extra-image loop is output
  only and is not modelled.
- An extra-image entry whose `item` is present but is not a string is
  recorded as it is by the source. The model takes `item` as an optional
  string, so that case is not modelled.
- `Nps.FinalizarNps` omits the `os.path.exists(final_pdf)` check after the
  merged write. In the model a successful write always leaves the file, so
  that 500 branch cannot be reached.
- `Finalizacao.GerarPdfFinal` has no branch for a failing `os.remove` of
  the temporary file. The file has just been written and is a regular
  file, so the removal always succeeds in the model.
- The file system is a flat map from path to entry. `os.makedirs` creating
  missing parents, and an ordinary file standing where a parent directory
  should be, are not modelled.
- The finalisation handlers upload a local path where `upload_pdf` expects
  base 64. What the lenient decoder makes of that path is the opaque
  parameter `pathDecode`, so no round trip is stated for those two uploads.
- The dictionaries of the survey requests are sequences of key/value pairs
  in dictionary order, with values already in printed form. Key uniqueness
  and the formatting of non-string JSON values are not modelled.
- Concurrency between requests, network failures other than a refused or
  unreachable bucket, and FastAPI's request validation are not modelled.
- `app/routers/public.py`, `app/routers/respostas.py`, `app/main.py` and
  `app/schemas.py` are not part of this model. They hold template routing,
  application wiring and a pass-through insert.
