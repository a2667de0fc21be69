/** The external collaborators of the pipeline as in-memory objects: the
    storage bucket `processos` (path to octets, with public URLs), the local
    file system the finalisation handlers read and write (path to node), and
    the two ledger tables `processos` and `ressalvas_itens`. */
module Stores {
  import opened Common
  import opened Layout

  /** Message of the storage service when a path is already taken. */
  const DuplicateMessage: string := "The resource already exists"
  /** Stands for the message of a storage request that did not reach the service. */
  const UnreachableMessage: string := "Storage service unavailable"

  datatype StoreWrite = Written | Refused(cause: string)

  /** The storage bucket. `reachable` says whether the service accepts
      requests; `publicUrl` is the client's `get_public_url`. */
  class BlobStore {
    var objects: map<string, Bytes>
    var reachable: bool
    const publicUrl: string -> string

    constructor (objects: map<string, Bytes>, reachable: bool, publicUrl: string -> string)
      ensures this.objects == objects && this.reachable == reachable && this.publicUrl == publicUrl
    {
      this.objects, this.reachable, this.publicUrl := objects, reachable, publicUrl;
    }

    /** `upload(path, data, {"upsert": False})`: an existing object is never
        overwritten; a refused write changes nothing. */
    method Upload(path: string, data: Bytes) returns (w: StoreWrite)
      modifies this
      ensures reachable == old(reachable)
      ensures !old(reachable) ==> w == Refused(UnreachableMessage)
      ensures old(reachable) && path in old(objects) ==> w == Refused(DuplicateMessage)
      ensures w == Written <==> old(reachable) && path !in old(objects)
      ensures objects == if w == Written then old(objects)[path := data] else old(objects)
    {
      if !reachable {
        w := Refused(UnreachableMessage);
      } else if path in objects {
        w := Refused(DuplicateMessage);
      } else {
        objects := objects[path := data];
        w := Written;
      }
    }
  }

  /** What the survey file `nps.json` holds: the score and the two mappings,
      each value already in the text form the renderer prints. */
  datatype NpsRecord = NpsRecord(nps: string, avaliacoes: seq<(string, string)>, feedback: seq<(string, string)>)

  /** A file-system entry: a directory, a PDF file read as its pages, the
      survey JSON file, or any other file (which no reader can parse). */
  datatype Node = Directory | PdfFile(doc: Document) | NpsJson(record: NpsRecord) | OtherFile

  /** `os.path.join(a, b)` of POSIX: an absolute `b` replaces `a`. */
  function Join(a: string, b: string): (r: string)
    ensures b != [] && b[0] == '/' ==> r == b
    ensures (b == [] || b[0] != '/') && a != [] && a[|a| - 1] != '/' ==> r == a + "/" + b
    ensures (b == [] || b[0] != '/') && (a == [] || a[|a| - 1] == '/') ==> r == a + b
  {
    if b != [] && b[0] == '/' then b
    else if a == [] || a[|a| - 1] == '/' then a + b
    else a + "/" + b
  }

  /** `s` ends with `a`. */
  predicate EndsWith(s: string, a: string)
  {
    |s| >= |a| && s[|s| - |a|..] == a
  }

  /** Two paths that end with names differing `k` characters from their
      ends are different paths. */
  lemma EndingsDiffer(s: string, t: string, a: string, b: string, k: nat)
    requires EndsWith(s, a) && EndsWith(t, b)
    requires 1 <= k <= |a| && k <= |b| && a[|a| - k] != b[|b| - k]
    ensures s != t
  {
    assert s[|s| - k] == a[|a| - k];
    assert t[|t| - k] == b[|b| - k];
  }

  /** A path joined onto a relative name ends with that name. */
  lemma JoinSuffix(a: string, b: string)
    requires b != [] && b[0] != '/'
    ensures EndsWith(Join(a, b), b)
  {
  }

  /** `nodes` after `os.makedirs(p, exist_ok=True)` has seen them. */
  function WithDirectory(nodes: map<string, Node>, p: string): (r: map<string, Node>)
    ensures p in r
  {
    if p in nodes then nodes else nodes[p := Directory]
  }

  /** `os.path.join("pdfs", processo_id)`, where the handlers keep a process's files. */
  function BaseDir(processoId: string): string
  {
    Join("pdfs", processoId)
  }

  /** `os.path.join(base_dir, "termo", "termo.pdf")`. */
  function TermoFile(processoId: string): string
  {
    Join(Join(BaseDir(processoId), "termo"), "termo.pdf")
  }

  /** `os.path.join(base_dir, "ressalvas", "ressalvas.pdf")`. */
  function RessalvasFile(processoId: string): string
  {
    Join(Join(BaseDir(processoId), "ressalvas"), "ressalvas.pdf")
  }

  /** The outcome of a run of file-system steps and the entries they leave. */
  datatype Staged<T> = Staged(outcome: Result<T>, nodes: map<string, Node>)

  /** The local file system as a flat map from path to entry. */
  class FileSystem {
    var nodes: map<string, Node>

    constructor (nodes: map<string, Node>)
      ensures this.nodes == nodes
    {
      this.nodes := nodes;
    }

    /** `os.path.exists(p)`: true for files and directories alike. */
    method Exists(p: string) returns (b: bool)
      ensures b == (p in nodes)
    {
      b := p in nodes;
    }

    /** `os.makedirs(p, exist_ok=True)`: succeeds when `p` is absent or a
        directory, and fails when a file is in the way. */
    method MakeDirs(p: string) returns (ok: bool)
      modifies this
      ensures ok == (p !in old(nodes) || old(nodes)[p].Directory?)
      ensures nodes == WithDirectory(old(nodes), p)
    {
      ok := p !in nodes || nodes[p].Directory?;
      if p !in nodes {
        nodes := nodes[p := Directory];
      }
    }

    /** Writing a PDF at `p` (`canvas.save()` or `merger.write`): replaces a
        file, and fails on a directory. */
    method WritePdf(p: string, doc: Document) returns (ok: bool)
      modifies this
      ensures ok == !(p in old(nodes) && old(nodes)[p].Directory?)
      ensures nodes == if ok then old(nodes)[p := PdfFile(doc)] else old(nodes)
    {
      ok := !(p in nodes && nodes[p].Directory?);
      if ok {
        nodes := nodes[p := PdfFile(doc)];
      }
    }

    /** Reading the pages of the PDF at `p`; `None` when it is missing or not a PDF. */
    method ReadPdf(p: string) returns (r: Option<Document>)
      ensures r.Some? <==> p in nodes && nodes[p].PdfFile?
      ensures r.Some? ==> r.value == nodes[p].doc
    {
      r := if p in nodes && nodes[p].PdfFile? then Some(nodes[p].doc) else None;
    }

    /** `json.load` of the file at `p`; `None` when it is missing or not survey JSON. */
    method ReadNpsJson(p: string) returns (r: Option<NpsRecord>)
      ensures r.Some? <==> p in nodes && nodes[p].NpsJson?
      ensures r.Some? ==> r.value == nodes[p].record
    {
      r := if p in nodes && nodes[p].NpsJson? then Some(nodes[p].record) else None;
    }

    /** `os.remove(p)`: removes a file; fails on a missing path or a directory. */
    method Remove(p: string) returns (ok: bool)
      modifies this
      ensures ok == (p in old(nodes) && !old(nodes)[p].Directory?)
      ensures nodes == if ok then old(nodes) - {p} else old(nodes)
    {
      ok := p in nodes && !nodes[p].Directory?;
      if ok {
        nodes := nodes - {p};
      }
    }
  }

  /** An additional termo image recorded on the process row. */
  datatype ImagemTermo = ImagemTermo(item: string, url: string)

  /** A row of the `processos` table. `id` is the key the database assigns;
      `processoId` is the UUID and `codigo` the human code the termo handler writes. */
  datatype Processo = Processo(
    id: string,
    processoId: string,
    codigo: string,
    nomeCliente: string,
    cpf: string,
    status: string,
    statusEntrega: string,
    termoPdf: string,
    imagensTermo: Option<seq<ImagemTermo>>,
    criadoEm: string,
    pdfRessalvas: Option<string>,
    atualizadoEm: Option<string>,
    pdfFinal: Option<string>,
    finalizadoEm: Option<string>)

  /** A row of the `ressalvas_itens` table. */
  datatype ItemRessalva = ItemRessalva(
    processoId: string,
    item: string,
    descricao: string,
    prazo: Option<string>,
    aprovacao: bool,
    imagemHash: Option<string>,
    criadoEm: string)

  /** The rows whose `codigo` column equals `codigo`, in table order. */
  function WithCodigo(rows: seq<Processo>, codigo: string): (r: seq<Processo>)
    ensures |r| <= |rows|
    ensures forall k :: 0 <= k < |r| ==> r[k].codigo == codigo && r[k] in rows
    ensures (exists k :: 0 <= k < |rows| && rows[k].codigo == codigo) <==> r != []
  {
    if rows == [] then []
    else if rows[0].codigo == codigo then [rows[0]] + WithCodigo(rows[1..], codigo)
    else WithCodigo(rows[1..], codigo)
  }

  /** Every row with the code comes back as many times as the table holds
      it, and no other row comes back. */
  lemma {:induction false} WithCodigoCounts(rows: seq<Processo>, codigo: string)
    ensures forall p :: multiset(WithCodigo(rows, codigo))[p] == if p.codigo == codigo then multiset(rows)[p] else 0
  {
    if rows != [] {
      assert rows == [rows[0]] + rows[1..];
      WithCodigoCounts(rows[1..], codigo);
    }
  }

  /** The selection keeps table order: over two stretches of the table it
      gives the matches of the first stretch, then those of the second. */
  lemma {:induction false} WithCodigoConcat(a: seq<Processo>, b: seq<Processo>, codigo: string)
    ensures WithCodigo(a + b, codigo) == WithCodigo(a, codigo) + WithCodigo(b, codigo)
  {
    if a != [] {
      var ab := a + b;
      assert ab[0] == a[0] && ab[1..] == a[1..] + b;
      WithCodigoConcat(a[1..], b, codigo);
      var rest := WithCodigo(a[1..], codigo) + WithCodigo(b, codigo);
      if a[0].codigo == codigo {
        assert WithCodigo(ab, codigo) == [a[0]] + rest;
        assert WithCodigo(a, codigo) == [a[0]] + WithCodigo(a[1..], codigo);
      } else {
        assert WithCodigo(ab, codigo) == rest;
        assert WithCodigo(a, codigo) == WithCodigo(a[1..], codigo);
      }
    } else {
      assert a + b == b;
    }
  }

  /** A row appended to the table is found by its code, after the rows
      that already had that code. */
  lemma {:induction false} WithCodigoAppend(rows: seq<Processo>, row: Processo)
    ensures WithCodigo(rows + [row], row.codigo) == WithCodigo(rows, row.codigo) + [row]
  {
    if rows != [] {
      assert (rows + [row])[1..] == rows[1..] + [row];
      WithCodigoAppend(rows[1..], row);
    } else {
      assert [row][1..] == [];
    }
  }

  /** `update(change).eq(column, value)`: every row the filter selects is
      changed, every other row is left as it was, and no row is added or removed. */
  function UpdateWhere(rows: seq<Processo>, selected: Processo -> bool, change: Processo -> Processo): (r: seq<Processo>)
    ensures |r| == |rows|
    ensures forall k :: 0 <= k < |rows| ==> r[k] == if selected(rows[k]) then change(rows[k]) else rows[k]
  {
    seq(|rows|, k requires 0 <= k < |rows| => if selected(rows[k]) then change(rows[k]) else rows[k])
  }

  /** The two tables of the ledger. */
  class Ledger {
    var processos: seq<Processo>
    var ressalvasItens: seq<ItemRessalva>

    constructor (processos: seq<Processo>, ressalvasItens: seq<ItemRessalva>)
      ensures this.processos == processos && this.ressalvasItens == ressalvasItens
    {
      this.processos, this.ressalvasItens := processos, ressalvasItens;
    }

    /** `select(...).eq("codigo", codigo)`. */
    method SelectByCodigo(codigo: string) returns (rows: seq<Processo>)
      ensures rows == WithCodigo(processos, codigo)
    {
      rows := WithCodigo(processos, codigo);
    }

    /** `table("processos").insert(row)`. */
    method InsertProcesso(row: Processo)
      modifies this
      ensures processos == old(processos) + [row]
      ensures ressalvasItens == old(ressalvasItens)
    {
      processos := processos + [row];
    }

    /** `table("ressalvas_itens").insert(rows)`: the rows appended in order. */
    method InsertItens(rows: seq<ItemRessalva>)
      modifies this
      ensures ressalvasItens == old(ressalvasItens) + rows
      ensures processos == old(processos)
    {
      ressalvasItens := ressalvasItens + rows;
    }

    /** `table("processos").update(...).eq(...)`. */
    method UpdateProcessos(selected: Processo -> bool, change: Processo -> Processo)
      modifies this
      ensures processos == UpdateWhere(old(processos), selected, change)
      ensures ressalvasItens == old(ressalvasItens)
    {
      processos := UpdateWhere(processos, selected, change);
    }
  }
}
