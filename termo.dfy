/** app/routers/termo.py: `salvar_termo` validates the request, derives the
    human process code, renders the one-page term (the captured photograph
    over a purple background), uploads it and any additional images, and
    inserts the process row. `uuids(k)` is the k-th `uuid.uuid4()` of the
    request: the process UUID first, then one per upload. */
module Termo {
  import opened Common
  import opened Text
  import opened Layout
  import opened Stores
  import Base64
  import Codec
  import Upload

  /** The request body (`TermoRequest`); `imagens` are the additional images. */
  datatype TermoRequest = TermoRequest(
    cpf: string,
    nomeCliente: string,
    statusEntrega: string,
    imagem: string,
    imagens: seq<ExtraImage>)

  /** One entry of `imagens`, taken to be a JSON object whose `item` and
      `imagem_base64` keys may be missing. `None` for `imagem_base64` also
      stands for a value that is not a string, which fails `.split` just as
      a missing key does; `None` for `item` is only the missing key. */
  datatype ExtraImage = ExtraImage(item: Option<string>, imagemBase64: Option<string>)

  const CpfInvalid: HttpError := HttpError(400, "CPF inválido")
  const NameMissing: HttpError := HttpError(400, "Nome do cliente obrigatório")
  const ImageInvalid: HttpError := HttpError(400, "Imagem Base64 inválida")
  const DeliveryInvalid: HttpError := HttpError(400, "Status de entrega inválido")
  const PhotoUndecodable: HttpError := HttpError(400, "Falha ao decodificar imagem")
  const InternalPrefix: string := "Erro interno: "
  const EmptyUrl: HttpError := HttpError(500, "Falha no upload do PDF")
  /** `str(KeyError("item"))` reported by the outer handler. */
  const MissingItem: HttpError := HttpError(500, "Erro interno: 'item'")
  const Background: string := "#5b2fa6"
  const GeneratedStatus: string := "TERMO_GERADO"

  /** `re.sub(r"\D", "", cpf)`: only digits remain, and a CPF typed as bare
      digits is kept as it is. */
  function CpfLimpo(cpf: string): string
  {
    DigitsOnly(cpf)
  }

  /** A CPF typed as bare digits is kept whole. */
  lemma CpfLimpoOfDigits(cpf: string)
    requires forall i :: 0 <= i < |cpf| ==> IsDigit(cpf[i])
    ensures CpfLimpo(cpf) == cpf
  {
    DigitsOnlyOfDigits(cpf);
  }

  predicate CpfValid(cpfLimpo: string)
  {
    |cpfLimpo| == 11 && forall i :: 0 <= i < |cpfLimpo| ==> IsDigit(cpfLimpo[i])
  }

  predicate DeliveryValid(status: string)
  {
    status == "concluido" || status == "concluido_com_ressalva"
  }

  /** The four guards of step 1, in order; `None` when all of them pass. */
  function Validation(req: TermoRequest): (r: Option<HttpError>)
    ensures r.Some? ==> r.value.status == 400
    ensures r.None? <==>
      CpfValid(CpfLimpo(req.cpf)) && Strip(req.nomeCliente) != [] && ',' in req.imagem && DeliveryValid(req.statusEntrega)
    ensures !CpfValid(CpfLimpo(req.cpf)) ==> r == Some(CpfInvalid)
    ensures CpfValid(CpfLimpo(req.cpf)) && Strip(req.nomeCliente) == [] ==> r == Some(NameMissing)
    ensures CpfValid(CpfLimpo(req.cpf)) && Strip(req.nomeCliente) != [] && ',' !in req.imagem ==> r == Some(ImageInvalid)
    ensures CpfValid(CpfLimpo(req.cpf)) && Strip(req.nomeCliente) != [] && ',' in req.imagem && !DeliveryValid(req.statusEntrega) ==>
      r == Some(DeliveryInvalid)
  {
    if |CpfLimpo(req.cpf)| != 11 then Some(CpfInvalid)
    else if Strip(req.nomeCliente) == [] then Some(NameMissing)
    else if ',' !in req.imagem then Some(ImageInvalid)
    else if !DeliveryValid(req.statusEntrega) then Some(DeliveryInvalid)
    else None
  }

  /** Cleaning deletes every character that is not a digit, wherever it
      stands, and keeps every digit in its place. */
  lemma CpfPunctuationIgnored(a: string, c: char, b: string)
    ensures !IsDigit(c) ==> CpfLimpo(a + [c] + b) == CpfLimpo(a + b)
    ensures IsDigit(c) ==> CpfLimpo(a + [c] + b) == CpfLimpo(a) + [c] + CpfLimpo(b)
  {
    DigitsOnlyDeletes(a, c, b);
  }

  /** `re.sub(r"[^A-Z]", "", nome.split()[0].upper())`. */
  function FirstName(nome: string): (r: string)
    ensures forall i :: 0 <= i < |r| ==> IsUpperLetter(r[i])
  {
    UpperLettersOnly(Upper(FirstWord(nome)))
  }

  predicate IsAsciiLetter(c: char)
  {
    'A' <= c <= 'Z' || 'a' <= c <= 'z'
  }

  /** Only the first word of the name counts: it is upper-cased and every
      character that is then not a capital letter is dropped; a word of
      ASCII letters is kept whole, in capitals. */
  lemma FirstNameOfWord(lead: string, word: string, rest: string)
    requires forall i :: 0 <= i < |lead| ==> IsSpace(lead[i])
    requires word != [] && forall i :: 0 <= i < |word| ==> !IsSpace(word[i])
    requires rest == [] || IsSpace(rest[0])
    ensures FirstName(lead + word + rest) == UpperLettersOnly(Upper(word))
    ensures (forall i :: 0 <= i < |word| ==> IsAsciiLetter(word[i])) ==> FirstName(lead + word + rest) == Upper(word)
  {
    FirstWordOf(lead, word, rest);
    assert FirstName(lead + word + rest) == UpperLettersOnly(Upper(word));
    if forall i :: 0 <= i < |word| ==> IsAsciiLetter(word[i]) {
      UpperOfLetters(word);
    }
  }

  /** A word of ASCII letters is all capital letters once upper-cased. */
  lemma UpperOfLetters(word: string)
    requires forall i :: 0 <= i < |word| ==> IsAsciiLetter(word[i])
    ensures UpperLettersOnly(Upper(word)) == Upper(word)
  {
    var u := Upper(word);
    forall i | 0 <= i < |u|
      ensures IsUpperLetter(u[i])
    {
      assert u[i] == UpperChar(word[i]);
    }
    UpperLettersOnlyOfUpper(u);
  }

  /** `s[-3:]`. */
  function LastThree(s: string): (r: string)
    ensures |r| == if |s| < 3 then |s| else 3
    ensures r == s[|s| - |r|..]
  {
    if |s| <= 3 then s else s[|s| - 3..]
  }

  predicate SuffixChar(c: char)
  {
    IsUpperLetter(c) || IsDigit(c)
  }

  /** What `random.choices(ascii_uppercase + digits, k=4)` can produce. */
  predicate SuffixValid(s: string)
  {
    |s| == 4 && forall i :: 0 <= i < |s| ==> SuffixChar(s[i])
  }

  /** The human code `NOME_DDD_AAAA-MM-DD_XXXX`. */
  function HumanCode(nome: string, cpfLimpo: string, hoje: Date, sufixo: string): (r: string)
    ensures r == Text.Join([FirstName(nome), LastThree(cpfLimpo), IsoDate(hoje), sufixo], '_')
  {
    JoinFour(FirstName(nome), LastThree(cpfLimpo), IsoDate(hoje), sufixo, '_');
    FirstName(nome) + "_" + LastThree(cpfLimpo) + "_" + IsoDate(hoje) + "_" + sufixo
  }

  lemma IsoDateNoUnderscore(d: Date)
    ensures '_' !in IsoDate(d)
  {
    var a, b, c := ZeroPad(d.year, 4), ZeroPad(d.month, 2), ZeroPad(d.day, 2);
    assert IsoDate(d) == a + "-" + b + "-" + c;
    assert '_' !in a && '_' !in b && '_' !in c;
  }

  /** The code splits at `_` back into its four fields: the first name in
      capitals, the last three CPF digits, the ISO date and the suffix. */
  lemma HumanCodeFields(nome: string, cpfLimpo: string, hoje: Date, sufixo: string)
    requires forall i :: 0 <= i < |cpfLimpo| ==> IsDigit(cpfLimpo[i])
    requires SuffixValid(sufixo)
    ensures Split(HumanCode(nome, cpfLimpo, hoje, sufixo), '_') ==
      [FirstName(nome), LastThree(cpfLimpo), IsoDate(hoje), sufixo]
  {
    FieldsNoUnderscore(nome, cpfLimpo, hoje, sufixo);
    SplitFour(FirstName(nome), LastThree(cpfLimpo), IsoDate(hoje), sufixo, '_');
  }

  lemma FieldsNoUnderscore(nome: string, cpfLimpo: string, hoje: Date, sufixo: string)
    requires forall i :: 0 <= i < |cpfLimpo| ==> IsDigit(cpfLimpo[i])
    requires SuffixValid(sufixo)
    ensures '_' !in FirstName(nome) && '_' !in LastThree(cpfLimpo) && '_' !in IsoDate(hoje) && '_' !in sufixo
  {
    DigitsNoUnderscore(LastThree(cpfLimpo), cpfLimpo);
    LettersNoUnderscore(FirstName(nome));
    SuffixNoUnderscore(sufixo);
    IsoDateNoUnderscore(hoje);
  }

  lemma DigitsNoUnderscore(l: string, s: string)
    requires forall i :: 0 <= i < |s| ==> IsDigit(s[i])
    requires |l| <= |s| && l == s[|s| - |l|..]
    ensures '_' !in l
  {
    forall i | 0 <= i < |l|
      ensures l[i] != '_'
    {
      assert l[i] == s[|s| - |l| + i];
    }
  }

  lemma LettersNoUnderscore(s: string)
    requires forall i :: 0 <= i < |s| ==> IsUpperLetter(s[i])
    ensures '_' !in s
  {
  }

  lemma SuffixNoUnderscore(s: string)
    requires SuffixValid(s)
    ensures '_' !in s
  {
  }

  /** Two requests get the same code only with the same first name, CPF
      ending, date and suffix. */
  lemma HumanCodeInjective(n1: string, c1: string, h1: Date, s1: string, n2: string, c2: string, h2: Date, s2: string)
    requires forall i :: 0 <= i < |c1| ==> IsDigit(c1[i])
    requires forall i :: 0 <= i < |c2| ==> IsDigit(c2[i])
    requires SuffixValid(s1) && SuffixValid(s2)
    requires HumanCode(n1, c1, h1, s1) == HumanCode(n2, c2, h2, s2)
    ensures FirstName(n1) == FirstName(n2) && LastThree(c1) == LastThree(c2)
    ensures IsoDate(h1) == IsoDate(h2) && s1 == s2
  {
    HumanCodeFields(n1, c1, h1, s1);
    HumanCodeFields(n2, c2, h2, s2);
  }

  /** Step 3: the text after the first comma decoded as it is (no
      normalisation, unlike the exceptions report). */
  function Photo(imagem: string): Option<Bytes>
    requires ',' in imagem
  {
    Base64.Decode(Codec.AfterFirstComma(imagem))
  }

  /** A photograph the strict decoding accepts is one the normalising
      decoder of the exceptions report accepts too, with the same octets. */
  lemma PhotoDecoded(imagem: string)
    requires ',' in imagem
    ensures Photo(imagem).Some? ==> Codec.DecodeImage(imagem) == Ok(Photo(imagem).value)
  {
    if Photo(imagem).Some? {
      Codec.DecodableIsNormal(Codec.AfterFirstComma(imagem));
    }
  }

  /** A photograph sent as a data URL of an encoding is decoded back to its octets. */
  lemma PhotoOfDataUrl(header: string, b: Bytes)
    requires ',' !in header
    ensures ',' in header + [','] + Base64.Encode(b)
    ensures Photo(header + [','] + Base64.Encode(b)) == Some(b)
  {
    Codec.AfterHeader(header, Base64.Encode(b));
    Base64.DecodeEncode(b);
  }

  /** The term document: one page, the purple fill under the photograph
      stretched over the whole `width` by `height` page. */
  function TermoDocument(photo: Bytes, width: int, height: int): Document
  {
    [[Fill(Background), Picture(0, 0, width, height, photo)]]
  }

  /** Step 4, drawn on a fresh canvas. */
  method RenderTermo(photo: Bytes, width: int, height: int) returns (doc: Document)
    ensures doc == TermoDocument(photo, width, height)
    ensures |doc| == 1 && doc[0][|doc[0]| - 1] == Picture(0, 0, width, height, photo)
  {
    var c := new Canvas();
    c.FillPage(Background);
    c.DrawImage(0, 0, width, height, photo);
    assert c.page == [Fill(Background), Picture(0, 0, width, height, photo)];
    c.ShowPage();
    doc := c.Save();
  }

  /** The folder of the additional images of a process. */
  function ImagesFolder(processoUuid: string): string
  {
    processoUuid + "/termo/imagens"
  }

  /** What the loop over the additional images has done so far: the bucket
      contents, how many UUIDs it drew, the images it recorded, and whether
      it stopped on an entry without `item`. */
  datatype Extras = Extras(objects: map<string, Bytes>, drawn: nat, urls: seq<ImagemTermo>, failed: bool)

  /** The steps of the `try` block up to the decoding; `None` where Python
      raises (no `imagem_base64`, no comma, not base 64). */
  function ExtraBytes(img: ExtraImage): (r: Option<Bytes>)
    ensures img.imagemBase64.None? ==> r.None?
    ensures r.Some? ==> img.imagemBase64.Some? && ',' in img.imagemBase64.value
  {
    if img.imagemBase64.None? || ',' !in img.imagemBase64.value then None
    else Photo(img.imagemBase64.value)
  }

  /** The octets of an entry are what the normalising decoder of the
      exceptions report gives for the same image. */
  lemma ExtraBytesDecoded(img: ExtraImage)
    ensures ExtraBytes(img).Some? ==> Codec.DecodeImage(img.imagemBase64.value) == Ok(ExtraBytes(img).value)
  {
    if ExtraBytes(img).Some? {
      PhotoDecoded(img.imagemBase64.value);
    }
  }

  /** The path the next loop pass uploads to: a fresh UUID per decodable entry. */
  function ExtraPath(st: Extras, folder: string, uuids: nat -> string): string
  {
    Upload.StorePath(folder, uuids(st.drawn))
  }

  /** Whether one loop pass stores its entry: the image decodes and the
      bucket accepts it at a free path. */
  predicate StoresUpload(st: Extras, img: ExtraImage, folder: string, reachable: bool, uuids: nat -> string)
  {
    ExtraBytes(img).Some? && reachable && ExtraPath(st, folder, uuids) !in st.objects
  }

  /** Whether one loop pass records its entry: it is stored, the upload
      returns a non-empty URL, and the entry has an `item`. */
  predicate RecordsUpload(st: Extras, img: ExtraImage, folder: string, reachable: bool,
                          publicUrl: string -> string, uuids: nat -> string)
  {
    && StoresUpload(st, img, folder, reachable, uuids)
    && publicUrl(ExtraPath(st, folder, uuids)) != "" && img.item.Some?
  }

  /** One pass of the loop body. A decodable image is re-encoded as a PNG
      data URL and uploaded under a freshly drawn UUID (the decoding inside
      `upload_pdf` gives the same octets back, see `Codec.StripHeaderRoundTrip`);
      it is recorded when the upload returns a non-empty URL. Any exception is
      swallowed by the `except` branch, but that branch reads `item`, and so
      does recording: an entry without `item` stops the request there. */
  function ExtraStep(st: Extras, img: ExtraImage, folder: string, reachable: bool,
                     publicUrl: string -> string, uuids: nat -> string): Extras
  {
    var swallowed := if img.item.None? then st.(failed := true) else st;
    match ExtraBytes(img)
    case None => swallowed
    case Some(b) =>
      var path := Upload.StorePath(folder, uuids(st.drawn));
      if !reachable || path in st.objects then
        swallowed.(drawn := st.drawn + 1)
      else
        var stored := st.(objects := st.objects[path := b], drawn := st.drawn + 1);
        if publicUrl(path) == "" then stored
        else if img.item.None? then stored.(failed := true)
        else stored.(urls := st.urls + [ImagemTermo(img.item.value, publicUrl(path))])
  }

  /** One pass appends the record of its entry exactly when it records it,
      and otherwise keeps the records. */
  lemma ExtraStepRecords(st: Extras, img: ExtraImage, folder: string, reachable: bool,
                         publicUrl: string -> string, uuids: nat -> string)
    ensures ExtraStep(st, img, folder, reachable, publicUrl, uuids).urls ==
      if RecordsUpload(st, img, folder, reachable, publicUrl, uuids)
      then st.urls + [ImagemTermo(img.item.value, publicUrl(ExtraPath(st, folder, uuids)))]
      else st.urls
  {
    if ExtraBytes(img).Some? {
      var path := ExtraPath(st, folder, uuids);
      assert path == Upload.StorePath(folder, uuids(st.drawn));
    }
  }

  /** One pass draws a name for a decodable image, stores its octets exactly
      when the bucket accepts them at a free path, and fails exactly when it
      reads a missing `item` (which it does unless it stored the image and
      got an empty URL). */
  lemma ExtraStepState(st: Extras, img: ExtraImage, folder: string, reachable: bool,
                       publicUrl: string -> string, uuids: nat -> string)
    ensures var r := ExtraStep(st, img, folder, reachable, publicUrl, uuids);
      r.drawn == st.drawn + (if ExtraBytes(img).Some? then 1 else 0)
    ensures var r := ExtraStep(st, img, folder, reachable, publicUrl, uuids);
      r.objects == if StoresUpload(st, img, folder, reachable, uuids)
        then st.objects[ExtraPath(st, folder, uuids) := ExtraBytes(img).value]
        else st.objects
    ensures var r := ExtraStep(st, img, folder, reachable, publicUrl, uuids);
      r.failed <==> (st.failed || (img.item.None? &&
        !(StoresUpload(st, img, folder, reachable, uuids) && publicUrl(ExtraPath(st, folder, uuids)) == "")))
  {
    if ExtraBytes(img).Some? {
      var path := ExtraPath(st, folder, uuids);
      assert path == Upload.StorePath(folder, uuids(st.drawn));
    }
  }

  /** The loop of step 7 over a prefix of the entries; it stops at the first failure. */
  function ExtrasFold(start: Extras, imgs: seq<ExtraImage>, folder: string, reachable: bool,
                      publicUrl: string -> string, uuids: nat -> string): (r: Extras)
    ensures start.failed ==> r == start
    ensures start.drawn <= r.drawn <= start.drawn + |imgs|
    decreases |imgs|
  {
    if imgs == [] then start
    else
      var st := ExtrasFold(start, imgs[..|imgs| - 1], folder, reachable, publicUrl, uuids);
      if st.failed then st else ExtraStep(st, imgs[|imgs| - 1], folder, reachable, publicUrl, uuids)
  }

  /** Objects already in the bucket stay as they were; every new object
      holds the decoded octets of one of the entries. */
  lemma {:induction false} ExtrasStoreDecoded(start: Extras, imgs: seq<ExtraImage>, folder: string, reachable: bool,
                                              publicUrl: string -> string, uuids: nat -> string)
    ensures var r := ExtrasFold(start, imgs, folder, reachable, publicUrl, uuids);
      forall p :: p in start.objects ==> p in r.objects && r.objects[p] == start.objects[p]
    ensures var r := ExtrasFold(start, imgs, folder, reachable, publicUrl, uuids);
      forall p :: p in r.objects && p !in start.objects ==>
        exists k :: 0 <= k < |imgs| && ExtraBytes(imgs[k]) == Some(r.objects[p])
  {
    if imgs != [] {
      var prefix := imgs[..|imgs| - 1];
      var last := imgs[|imgs| - 1];
      ExtrasStoreDecoded(start, prefix, folder, reachable, publicUrl, uuids);
      var st := ExtrasFold(start, prefix, folder, reachable, publicUrl, uuids);
      var r := ExtrasFold(start, imgs, folder, reachable, publicUrl, uuids);
      assert r == if st.failed then st else ExtraStep(st, last, folder, reachable, publicUrl, uuids);
      if !st.failed {
        ExtraStepStores(st, last, folder, reachable, publicUrl, uuids);
      }
      forall p | p in r.objects && p !in start.objects
        ensures exists k :: 0 <= k < |imgs| && ExtraBytes(imgs[k]) == Some(r.objects[p])
      {
        if p in st.objects {
          var k :| 0 <= k < |prefix| && ExtraBytes(prefix[k]) == Some(st.objects[p]);
          assert prefix[k] == imgs[k];
        } else {
          assert ExtraBytes(imgs[|imgs| - 1]) == Some(r.objects[p]);
        }
      }
    }
  }

  /** One loop pass keeps every stored object and adds only the decoded
      octets of its entry. */
  lemma ExtraStepStores(st: Extras, img: ExtraImage, folder: string, reachable: bool,
                        publicUrl: string -> string, uuids: nat -> string)
    ensures var r := ExtraStep(st, img, folder, reachable, publicUrl, uuids);
      forall p :: p in st.objects ==> p in r.objects && r.objects[p] == st.objects[p]
    ensures var r := ExtraStep(st, img, folder, reachable, publicUrl, uuids);
      forall p :: p in r.objects && p !in st.objects ==> ExtraBytes(img) == Some(r.objects[p])
  {
  }

  /** The loop fails only on an entry without `item`: when every entry has
      one, it runs to the end. */
  lemma {:induction false} ExtrasWithItemsSucceed(start: Extras, imgs: seq<ExtraImage>, folder: string, reachable: bool,
                                                  publicUrl: string -> string, uuids: nat -> string)
    requires !start.failed
    requires forall k :: 0 <= k < |imgs| ==> imgs[k].item.Some?
    ensures !ExtrasFold(start, imgs, folder, reachable, publicUrl, uuids).failed
  {
    if imgs != [] {
      var prefix := imgs[..|imgs| - 1];
      assert forall k :: 0 <= k < |prefix| ==> prefix[k] == imgs[k];
      ExtrasWithItemsSucceed(start, prefix, folder, reachable, publicUrl, uuids);
    }
  }

  /** The recorded images extend the starting ones, at most one per entry,
      each with a non-empty URL and the `item` of some entry. */
  lemma {:induction false} ExtrasRecorded(start: Extras, imgs: seq<ExtraImage>, folder: string, reachable: bool,
                                          publicUrl: string -> string, uuids: nat -> string)
    ensures var r := ExtrasFold(start, imgs, folder, reachable, publicUrl, uuids);
      |start.urls| <= |r.urls| <= |start.urls| + |imgs| && r.urls[..|start.urls|] == start.urls
    ensures var r := ExtrasFold(start, imgs, folder, reachable, publicUrl, uuids);
      forall j :: |start.urls| <= j < |r.urls| ==>
        r.urls[j].url != "" && exists k :: 0 <= k < |imgs| && imgs[k].item == Some(r.urls[j].item)
  {
    if imgs != [] {
      var prefix := imgs[..|imgs| - 1];
      ExtrasRecorded(start, prefix, folder, reachable, publicUrl, uuids);
      var st := ExtrasFold(start, prefix, folder, reachable, publicUrl, uuids);
      var r := ExtrasFold(start, imgs, folder, reachable, publicUrl, uuids);
      assert r.urls == st.urls || r.urls == st.urls + [r.urls[|r.urls| - 1]];
      forall j | |start.urls| <= j < |r.urls|
        ensures r.urls[j].url != "" && exists k :: 0 <= k < |imgs| && imgs[k].item == Some(r.urls[j].item)
      {
        if j < |st.urls| {
          assert r.urls[j] == st.urls[j];
          var k :| 0 <= k < |prefix| && prefix[k].item == Some(st.urls[j].item);
          assert prefix[k] == imgs[k];
        } else {
          assert imgs[|imgs| - 1].item == Some(r.urls[j].item);
        }
      }
    }
  }

  /** The images recorded after a prefix of the entries begin the images
      recorded after all of them: the loop only ever appends. */
  lemma {:induction false} ExtrasUrlsGrow(start: Extras, imgs: seq<ExtraImage>, m: nat, folder: string, reachable: bool,
                                          publicUrl: string -> string, uuids: nat -> string)
    requires m <= |imgs|
    ensures var a := ExtrasFold(start, imgs[..m], folder, reachable, publicUrl, uuids);
      var r := ExtrasFold(start, imgs, folder, reachable, publicUrl, uuids);
      |a.urls| <= |r.urls| && r.urls[..|a.urls|] == a.urls
    decreases |imgs|
  {
    if m == |imgs| {
      assert imgs[..m] == imgs;
    } else {
      var prefix := imgs[..|imgs| - 1];
      assert prefix[..m] == imgs[..m];
      ExtrasUrlsGrow(start, prefix, m, folder, reachable, publicUrl, uuids);
      var a := ExtrasFold(start, imgs[..m], folder, reachable, publicUrl, uuids);
      var st := ExtrasFold(start, prefix, folder, reachable, publicUrl, uuids);
      var r := ExtrasFold(start, imgs, folder, reachable, publicUrl, uuids);
      assert r == if st.failed then st else ExtraStep(st, imgs[|imgs| - 1], folder, reachable, publicUrl, uuids);
      ExtraStepRecords(st, imgs[|imgs| - 1], folder, reachable, publicUrl, uuids);
      assert |st.urls| <= |r.urls| && r.urls[..|st.urls|] == st.urls;
      assert r.urls[..|a.urls|] == r.urls[..|st.urls|][..|a.urls|];
    }
  }

  /** Entry `k` adds exactly one record, with its `item` and the URL of the
      path drawn for it, when the loop is still running and the entry is
      stored and has an `item`; otherwise it adds none. What it leaves stays
      at the front of the final records, so the records appear in the order
      of the entries. */
  lemma ExtrasRecordAt(start: Extras, imgs: seq<ExtraImage>, k: nat, folder: string, reachable: bool,
                       publicUrl: string -> string, uuids: nat -> string)
    requires k < |imgs|
    ensures var before := ExtrasFold(start, imgs[..k], folder, reachable, publicUrl, uuids);
      var after := ExtrasFold(start, imgs[..k + 1], folder, reachable, publicUrl, uuids);
      after.urls == if !before.failed && RecordsUpload(before, imgs[k], folder, reachable, publicUrl, uuids)
        then before.urls + [ImagemTermo(imgs[k].item.value, publicUrl(ExtraPath(before, folder, uuids)))]
        else before.urls
    ensures var after := ExtrasFold(start, imgs[..k + 1], folder, reachable, publicUrl, uuids);
      var r := ExtrasFold(start, imgs, folder, reachable, publicUrl, uuids);
      |after.urls| <= |r.urls| && r.urls[..|after.urls|] == after.urls
  {
    assert imgs[..k + 1][..k] == imgs[..k];
    assert imgs[..k + 1][k] == imgs[k];
    var before := ExtrasFold(start, imgs[..k], folder, reachable, publicUrl, uuids);
    ExtraStepRecords(before, imgs[k], folder, reachable, publicUrl, uuids);
    ExtrasUrlsGrow(start, imgs, k + 1, folder, reachable, publicUrl, uuids);
  }

  /** Step 7: the loop over the additional images, against the bucket. */
  method UploadExtras(store: BlobStore, imgs: seq<ExtraImage>, folder: string, uuids: nat -> string, drawn0: nat)
    returns (urls: seq<ImagemTermo>, drawn: nat, failed: bool)
    modifies store
    ensures store.reachable == old(store.reachable)
    ensures Extras(store.objects, drawn, urls, failed)
      == ExtrasFold(Extras(old(store.objects), drawn0, [], false), imgs, folder, old(store.reachable), store.publicUrl, uuids)
  {
    ghost var start := Extras(store.objects, drawn0, [], false);
    urls, drawn, failed := [], drawn0, false;
    var i := 0;
    while i < |imgs|
      invariant 0 <= i <= |imgs|
      invariant store.reachable == old(store.reachable)
      invariant !failed
      invariant Extras(store.objects, drawn, urls, failed)
        == ExtrasFold(start, imgs[..i], folder, store.reachable, store.publicUrl, uuids)
    {
      ghost var before := Extras(store.objects, drawn, urls, failed);
      var next := imgs[..i + 1];
      assert next[..|next| - 1] == imgs[..i] && next[i] == imgs[i];
      assert ExtrasFold(start, next, folder, store.reachable, store.publicUrl, uuids)
        == ExtraStep(before, imgs[i], folder, store.reachable, store.publicUrl, uuids);
      urls, drawn, failed := UploadExtra(store, imgs[i], folder, uuids, urls, drawn);
      i := i + 1;
      if failed {
        ExtrasFailStops(start, imgs, i, folder, store.reachable, store.publicUrl, uuids);
        return;
      }
    }
    assert imgs[..i] == imgs;
  }

  /** One pass of the loop of step 7, against the bucket. */
  method UploadExtra(store: BlobStore, img: ExtraImage, folder: string, uuids: nat -> string,
                     urls0: seq<ImagemTermo>, drawn0: nat)
    returns (urls: seq<ImagemTermo>, drawn: nat, failed: bool)
    modifies store
    ensures store.reachable == old(store.reachable)
    ensures Extras(store.objects, drawn, urls, failed)
      == ExtraStep(Extras(old(store.objects), drawn0, urls0, false), img, folder, old(store.reachable), store.publicUrl, uuids)
  {
    urls, drawn, failed := urls0, drawn0, false;
    var b := ExtraBytes(img);
    if b.None? {
      failed := img.item.None?;
    } else {
      var payload := Codec.PngDataUrl(b.value);
      Codec.StripHeaderRoundTrip(b.value);
      assert Base64.Decode(Codec.StripHeader(payload)) == b;
      assert Upload.StorePath(folder, uuids(drawn)) == ExtraPath(Extras(old(store.objects), drawn0, urls0, false), folder, uuids);
      var up := Upload.UploadPdf(store, payload, folder, uuids(drawn), Base64.Decode);
      drawn := drawn + 1;
      if up.UploadFailed? {
        failed := img.item.None?;
      } else if up.url != "" {
        if img.item.None? {
          failed := true;
        } else {
          urls := urls + [ImagemTermo(img.item.value, up.url)];
        }
      }
    }
  }

  /** Once the loop has stopped on a prefix, the whole loop ends in that state. */
  lemma {:induction false} ExtrasFailStops(start: Extras, imgs: seq<ExtraImage>, k: nat, folder: string, reachable: bool,
                                           publicUrl: string -> string, uuids: nat -> string)
    requires k <= |imgs|
    requires ExtrasFold(start, imgs[..k], folder, reachable, publicUrl, uuids).failed
    ensures ExtrasFold(start, imgs, folder, reachable, publicUrl, uuids) == ExtrasFold(start, imgs[..k], folder, reachable, publicUrl, uuids)
    decreases |imgs| - k
  {
    if k < |imgs| {
      var next := imgs[..k + 1];
      assert next[..|next| - 1] == imgs[..k];
      ExtrasFailStops(start, imgs, k + 1, folder, reachable, publicUrl, uuids);
    } else {
      assert imgs[..k] == imgs;
    }
  }

  /** The folder of the term PDF of a process. */
  function TermoFolder(processoUuid: string): string
  {
    processoUuid + "/termo"
  }

  /** The row step 8 inserts; the ledger assigns `id`, here `rowId`. */
  function TermoRow(rowId: string, processoUuid: string, codigo: string, req: TermoRequest,
                    termoUrl: string, urls: seq<ImagemTermo>, criadoEm: string): (r: Processo)
    ensures r.processoId == processoUuid && r.codigo == codigo && r.status == "TERMO_GERADO"
    ensures r.cpf == CpfLimpo(req.cpf) && forall i :: 0 <= i < |r.cpf| ==> IsDigit(r.cpf[i])
    ensures r.nomeCliente == req.nomeCliente && r.statusEntrega == req.statusEntrega && r.termoPdf == termoUrl
    ensures r.imagensTermo.None? <==> urls == []
    ensures r.imagensTermo.Some? ==> r.imagensTermo.value == urls
    ensures r.pdfRessalvas.None? && r.atualizadoEm.None? && r.pdfFinal.None? && r.finalizadoEm.None?
  {
    Processo(rowId, processoUuid, codigo, req.nomeCliente, CpfLimpo(req.cpf), GeneratedStatus,
             req.statusEntrega, termoUrl, if urls == [] then None else Some(urls), criadoEm,
             None, None, None, None)
  }

  /** The extra-image loop as it runs after the term upload: it starts
      from the bucket holding the term PDF and with two UUIDs drawn. */
  function ExtrasAfterTermo(objects: map<string, Bytes>, req: TermoRequest, termoPath: string, termoPdf: Bytes,
                            reachable: bool, publicUrl: string -> string, uuids: nat -> string): Extras
  {
    ExtrasFold(Extras(objects[termoPath := termoPdf], 2, [], false), req.imagens, ImagesFolder(uuids(0)),
               reachable, publicUrl, uuids)
  }

  /** Steps 5 to 8 of `salvar_termo`, once the request is valid and the
      photo decoded: the term is rendered and uploaded, then the extra
      images and the row follow. */
  method PublishTermo(ledger: Ledger, store: BlobStore, req: TermoRequest, codigo: string, photo: Bytes,
                      uuids: nat -> string, criadoEm: string, rowId: string, width: int, height: int,
                      pdfBytes: Document -> Bytes) returns (r: Result<string>)
    modifies ledger, store
    ensures store.reachable == old(store.reachable)
    ensures r.Err? ==> ledger.processos == old(ledger.processos)
    ensures ledger.ressalvasItens == old(ledger.ressalvasItens)
    ensures var path := Upload.StorePath(TermoFolder(uuids(0)), uuids(1));
      !old(store.reachable) || path in old(store.objects) ==>
        && store.objects == old(store.objects) && r.Err? && r.error.status == 500
        && StartsWith(r.error.detail, InternalPrefix + Upload.FailurePrefix)
    ensures var path := Upload.StorePath(TermoFolder(uuids(0)), uuids(1));
      var pdf := pdfBytes(TermoDocument(photo, width, height));
      old(store.reachable) && path !in old(store.objects) && store.publicUrl(path) == "" ==>
        r == Err(EmptyUrl) && store.objects == old(store.objects)[path := pdf]
    ensures var path := Upload.StorePath(TermoFolder(uuids(0)), uuids(1));
      var pdf := pdfBytes(TermoDocument(photo, width, height));
      var extras := ExtrasAfterTermo(old(store.objects), req, path, pdf, old(store.reachable), store.publicUrl, uuids);
      old(store.reachable) && path !in old(store.objects) && store.publicUrl(path) != "" ==>
        && store.objects == extras.objects
        && (extras.failed ==> r == Err(MissingItem))
        && (!extras.failed ==> r == Ok(codigo))
    ensures r.Ok? ==>
      var path := Upload.StorePath(TermoFolder(uuids(0)), uuids(1));
      var pdf := pdfBytes(TermoDocument(photo, width, height));
      var extras := ExtrasAfterTermo(old(store.objects), req, path, pdf, old(store.reachable), store.publicUrl, uuids);
      ledger.processos == old(ledger.processos)
        + [TermoRow(rowId, uuids(0), codigo, req, store.publicUrl(path), extras.urls, criadoEm)]
  {
    var processoUuid := uuids(0);
    var doc := RenderTermo(photo, width, height);
    var pdf := pdfBytes(doc);
    Codec.StripHeaderRoundTrip(pdf);
    var up := Upload.UploadPdf(store, Codec.PdfDataUrl(pdf), TermoFolder(processoUuid), uuids(1), Base64.Decode);
    if up.UploadFailed? {
      StartsWithPrepend(InternalPrefix, up.message, Upload.FailurePrefix);
      return Err(HttpError(500, InternalPrefix + up.message));
    }
    if up.url == "" {
      return Err(EmptyUrl);
    }
    r := FinishTermo(ledger, store, req, codigo, processoUuid, up.url, uuids, criadoEm, rowId);
  }

  /** `salvar_termo`. `hoje` is the local date, `sufixo` the random suffix,
      `criadoEm` the UTC time of the insert and `pdfBytes` the PDF
      serialisation of a document. */
  method SalvarTermo(ledger: Ledger, store: BlobStore, req: TermoRequest, hoje: Date, sufixo: string,
                     uuids: nat -> string, criadoEm: string, rowId: string, width: int, height: int,
                     pdfBytes: Document -> Bytes) returns (r: Result<string>)
    requires SuffixValid(sufixo)
    modifies ledger, store
    ensures store.reachable == old(store.reachable)
    ensures r.Err? ==> ledger.processos == old(ledger.processos) && ledger.ressalvasItens == old(ledger.ressalvasItens)
    ensures Validation(req).Some? ==> r == Err(Validation(req).value) && store.objects == old(store.objects)
    ensures Validation(req).None? && Photo(req.imagem).None? ==> r == Err(PhotoUndecodable) && store.objects == old(store.objects)
    ensures Validation(req).None? && Photo(req.imagem).Some? ==>
      var path := Upload.StorePath(TermoFolder(uuids(0)), uuids(1));
      !old(store.reachable) || path in old(store.objects) ==>
        && store.objects == old(store.objects) && r.Err? && r.error.status == 500
        && StartsWith(r.error.detail, InternalPrefix + Upload.FailurePrefix)
    ensures Validation(req).None? && Photo(req.imagem).Some? ==>
      var path := Upload.StorePath(TermoFolder(uuids(0)), uuids(1));
      var pdf := pdfBytes(TermoDocument(Photo(req.imagem).value, width, height));
      old(store.reachable) && path !in old(store.objects) && store.publicUrl(path) == "" ==>
        r == Err(EmptyUrl) && store.objects == old(store.objects)[path := pdf]
    ensures Validation(req).None? && Photo(req.imagem).Some? ==>
      var path := Upload.StorePath(TermoFolder(uuids(0)), uuids(1));
      var pdf := pdfBytes(TermoDocument(Photo(req.imagem).value, width, height));
      var extras := ExtrasAfterTermo(old(store.objects), req, path, pdf, old(store.reachable), store.publicUrl, uuids);
      old(store.reachable) && path !in old(store.objects) && store.publicUrl(path) != "" ==>
        && store.objects == extras.objects
        && (extras.failed ==> r == Err(MissingItem))
        && (!extras.failed ==> r == Ok(HumanCode(req.nomeCliente, CpfLimpo(req.cpf), hoje, sufixo)))
    ensures r.Ok? ==>
      var path := Upload.StorePath(TermoFolder(uuids(0)), uuids(1));
      var pdf := pdfBytes(TermoDocument(Photo(req.imagem).value, width, height));
      var extras := ExtrasAfterTermo(old(store.objects), req, path, pdf, old(store.reachable), store.publicUrl, uuids);
      && ledger.processos == old(ledger.processos)
           + [TermoRow(rowId, uuids(0), r.value, req, store.publicUrl(path), extras.urls, criadoEm)]
      && ledger.ressalvasItens == old(ledger.ressalvasItens)
  {
    var invalid := Validation(req);
    if invalid.Some? {
      return Err(invalid.value);
    }
    var cpfLimpo := CpfLimpo(req.cpf);
    var codigo := HumanCode(req.nomeCliente, cpfLimpo, hoje, sufixo);
    var photo := Photo(req.imagem);
    if photo.None? {
      return Err(PhotoUndecodable);
    }
    r := PublishTermo(ledger, store, req, codigo, photo.value, uuids, criadoEm, rowId, width, height, pdfBytes);
  }

  /** Steps 7 and 8 of `salvar_termo`, once the term is stored at `termoUrl`. */
  method FinishTermo(ledger: Ledger, store: BlobStore, req: TermoRequest, codigo: string, processoUuid: string,
                     termoUrl: string, uuids: nat -> string, criadoEm: string, rowId: string) returns (r: Result<string>)
    modifies ledger, store
    ensures store.reachable == old(store.reachable)
    ensures var extras := ExtrasFold(Extras(old(store.objects), 2, [], false), req.imagens, ImagesFolder(processoUuid),
                                     old(store.reachable), store.publicUrl, uuids);
      && store.objects == extras.objects
      && (extras.failed ==> r == Err(MissingItem) && ledger.processos == old(ledger.processos))
      && (!extras.failed ==>
            r == Ok(codigo)
            && ledger.processos == old(ledger.processos) + [TermoRow(rowId, processoUuid, codigo, req, termoUrl, extras.urls, criadoEm)])
    ensures ledger.ressalvasItens == old(ledger.ressalvasItens)
  {
    var urls, drawn, failed := UploadExtras(store, req.imagens, ImagesFolder(processoUuid), uuids, 2);
    if failed {
      return Err(MissingItem);
    }
    ledger.InsertProcesso(TermoRow(rowId, processoUuid, codigo, req, termoUrl, urls, criadoEm));
    r := Ok(codigo);
  }

  /** After a successful term, the exceptions stage finds the new process by
      its code, after any older row that happens to share it. */
  lemma TermoRowFoundByCode(rows: seq<Processo>, rowId: string, processoUuid: string, codigo: string,
                            req: TermoRequest, termoUrl: string, urls: seq<ImagemTermo>, criadoEm: string)
    ensures var row := TermoRow(rowId, processoUuid, codigo, req, termoUrl, urls, criadoEm);
      WithCodigo(rows + [row], codigo) == WithCodigo(rows, codigo) + [row]
  {
    WithCodigoAppend(rows, TermoRow(rowId, processoUuid, codigo, req, termoUrl, urls, criadoEm));
  }
}
