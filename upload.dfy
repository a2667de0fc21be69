/** `upload_pdf` of app/services/upload.py: strip a data-URL header, decode
    the base 64 payload, store the octets at a fresh path under `folder`
    without overwriting, and return the public URL of that path. The fresh
    `uuid4()` file name is the parameter `fileId`. The base 64 decoder is
    the parameter `b64decode`: the term and exceptions handlers hand it an
    RFC 4648 encoding and pass the strict decoder `Base64.Decode`, while the
    finalisation handlers hand it a file path, whose decoding by Python's
    lenient `b64decode` stays opaque. */
module Upload {
  import opened Common
  import Codec
  import opened Stores

  /** Every failure is reported as one message with this prefix. */
  const FailurePrefix: string := "Falha no upload do PDF: "

  datatype UploadResult = Uploaded(url: string) | UploadFailed(message: string)

  /** `f"{folder}/{uuid}.pdf"`. */
  function StorePath(folder: string, fileId: string): (p: string)
    ensures |p| == |folder| + |fileId| + 5
    ensures p[..|folder| + 1] == folder + "/"
    ensures p[|p| - 4..] == ".pdf"
  {
    folder + "/" + fileId + ".pdf"
  }

  /** Different file names give different paths in the same folder, so a
      fresh name is a fresh path. */
  lemma StorePathInjective(folder: string, a: string, b: string)
    requires StorePath(folder, a) == StorePath(folder, b)
    ensures a == b
  {
    var p := StorePath(folder, a);
    assert |a| == |b|;
    assert a == p[|folder| + 1..|folder| + 1 + |a|];
    assert b == StorePath(folder, b)[|folder| + 1..|folder| + 1 + |b|];
  }

  /** `upload_pdf(payload, folder)`. */
  method UploadPdf(store: BlobStore, payload: string, folder: string, fileId: string,
                   b64decode: string -> Option<Bytes>) returns (r: UploadResult)
    modifies store
    ensures store.reachable == old(store.reachable)
    ensures r.Uploaded? <==>
      b64decode(Codec.StripHeader(payload)).Some? && old(store.reachable)
      && StorePath(folder, fileId) !in old(store.objects)
    ensures r.Uploaded? ==>
      r.url == store.publicUrl(StorePath(folder, fileId))
      && store.objects == old(store.objects)[StorePath(folder, fileId) := b64decode(Codec.StripHeader(payload)).value]
    ensures r.UploadFailed? ==>
      store.objects == old(store.objects)
      && |r.message| >= |FailurePrefix| && r.message[..|FailurePrefix|] == FailurePrefix
  {
    var encoded := Codec.StripHeader(payload);
    var decoded := b64decode(encoded);
    if decoded.None? {
      r := UploadFailed(FailurePrefix + Codec.DecoderMessage);
      return;
    }
    var path := StorePath(folder, fileId);
    var w := store.Upload(path, decoded.value);
    if w.Refused? {
      r := UploadFailed(FailurePrefix + w.cause);
      return;
    }
    r := Uploaded(store.publicUrl(path));
  }
}
