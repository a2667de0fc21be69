/** The transport codec of the pipeline: data-URL payloads of the form
    `data:<mime>;base64,<payload>` (section 3 of RFC 2397) are split at the
    first comma, the payload is normalised and then decoded as base 64.
    Models `normalize_base64`, `decode_base64_image` and `gerar_hash_imagem`
    of app/routers/ressalvas.py, the data-URL construction of
    app/routers/termo.py and app/routers/ressalvas.py, and the header
    stripping of app/services/upload.py. */
module Codec {
  import opened Common
  import opened Text
  import Base64

  const PdfHeader: string := "data:application/pdf;base64,"
  const PngHeader: string := "data:image/png;base64,"

  /** Prefix of every error `decode_base64_image` reports. */
  const InvalidImagePrefix: string := "Imagem Base64 inválida: "
  /** The message of the error raised for a payload without a comma. */
  const MissingCommaMessage: string := "Formato Base64 inválido"
  /** Stands for the message of Python's base 64 decoder when it rejects a
      payload. The real text depends on the input, so contracts state only
      that it follows `InvalidImagePrefix` and is not the missing-comma one. */
  const DecoderMessage: string := "Incorrect padding"

  /** The payload after stripping surrounding whitespace and removing every
      newline and space (the first line of `normalize_base64`). */
  function Cleaned(encoded: string): (r: string)
    ensures ' ' !in r && '\n' !in r
  {
    var once := RemoveAll(Strip(encoded), '\n');
    assert '\n' !in once;
    RemoveAll(once, ' ')
  }

  /** The ends of the cleaned payload are not whitespace. */
  lemma CleanedEnds(encoded: string)
    ensures var c := Cleaned(encoded);
      c == [] || (!IsSpace(c[0]) && !IsSpace(c[|c| - 1]))
  {
    var t := Strip(encoded);
    RemoveKeepsEnds(t, '\n');
    RemoveKeepsEnds(RemoveAll(t, '\n'), ' ');
  }

  /** `n` padding characters. */
  function Padding(n: nat): (r: string)
    ensures |r| == n && forall i :: 0 <= i < n ==> r[i] == Base64.Pad
    ensures ' ' !in r && '\n' !in r
  {
    seq(n, _ => Base64.Pad)
  }

  /** The text followed by the fewest `=` characters that make its length a
      multiple of 4. */
  function PadToFour(c: string): (r: string)
    ensures |r| % 4 == 0
    ensures |c| <= |r| < |c| + 4
    ensures r[..|c|] == c
    ensures forall i :: |c| <= i < |r| ==> r[i] == Base64.Pad
    ensures ' ' !in c && '\n' !in c ==> ' ' !in r && '\n' !in r
    ensures c == [] ==> r == []
  {
    var missing := |c| % 4;
    if missing != 0 then
      var r := c + Padding(4 - missing);
      PaddedLength(|c|);
      assert r[..|c|] == c;
      r
    else c
  }

  /** `normalize_base64`: the cleaned payload followed by the fewest `=`
      characters (at most three) that make its length a multiple of 4. */
  function Normalize(encoded: string): (r: string)
    ensures |r| % 4 == 0
    ensures |Cleaned(encoded)| <= |r| < |Cleaned(encoded)| + 4
    ensures r[..|Cleaned(encoded)|] == Cleaned(encoded)
    ensures forall i :: |Cleaned(encoded)| <= i < |r| ==> r[i] == Base64.Pad
    ensures ' ' !in r && '\n' !in r
  {
    PadToFour(Cleaned(encoded))
  }

  /** The fewest padding characters complete a started group of four. */
  lemma PaddedLength(n: nat)
    requires n % 4 != 0
    ensures 0 < 4 - n % 4 < 4 && (n + (4 - n % 4)) % 4 == 0
  {
  }

  /** Removing a space character keeps ends that are not spaces. */
  lemma RemoveKeepsEnds(t: string, c: char)
    requires IsSpace(c)
    requires t == [] || (!IsSpace(t[0]) && !IsSpace(t[|t| - 1]))
    ensures var u := RemoveAll(t, c);
      u == [] || (!IsSpace(u[0]) && !IsSpace(u[|u| - 1]))
  {
    if t != [] {
      assert t[0] != c && t[|t| - 1] != c;
    }
  }

  /** The ends of a normalised payload are not whitespace. */
  lemma NormalizedEnds(encoded: string)
    ensures var r := Normalize(encoded);
      r == [] || (!IsSpace(r[0]) && !IsSpace(r[|r| - 1]))
  {
    CleanedEnds(encoded);
    PaddedEnds(Cleaned(encoded));
  }

  /** Padding keeps a first character that is not whitespace and ends, if
      it adds anything, on `=`. */
  lemma PaddedEnds(c: string)
    requires c == [] || (!IsSpace(c[0]) && !IsSpace(c[|c| - 1]))
    ensures var r := PadToFour(c);
      r == [] || (!IsSpace(r[0]) && !IsSpace(r[|r| - 1]))
  {
    var r := PadToFour(c);
    if c != [] {
      var head := r[..|c|];
      assert head == c;
      assert r[0] == head[0];
      if |c| < |r| {
        assert r[|r| - 1] == Base64.Pad;
      } else {
        assert r == head;
      }
    }
  }

  /** Normalising an already normalised payload changes nothing. */
  lemma NormalizeIdempotent(encoded: string)
    ensures Normalize(Normalize(encoded)) == Normalize(encoded)
  {
    var r := Normalize(encoded);
    NormalizedEnds(encoded);
    StripFixed(r);
    RemoveAllAbsent(r, '\n');
    RemoveAllAbsent(r, ' ');
    assert Cleaned(r) == r;
  }

  /** No character of a base 64 encoding is whitespace. */
  lemma EncodingHasNoSpace(b: Bytes)
    ensures forall i :: 0 <= i < |Base64.Encode(b)| ==> !IsSpace(Base64.Encode(b)[i])
  {
    var e := Base64.Encode(b);
    forall i | 0 <= i < |e|
      ensures !IsSpace(e[i])
    {
      assert Base64.InAlphabet(e[i]) || e[i] == Base64.Pad;
    }
  }

  /** A base 64 encoding is already in normal form. */
  lemma NormalizeEncoded(b: Bytes)
    ensures Normalize(Base64.Encode(b)) == Base64.Encode(b)
  {
    EncodingHasNoSpace(b);
    NormalWithoutSpace(Base64.Encode(b));
  }

  /** Text without whitespace whose length is a multiple of 4 is already in
      normal form. */
  lemma NormalWithoutSpace(s: string)
    requires forall i :: 0 <= i < |s| ==> !IsSpace(s[i])
    requires |s| % 4 == 0
    ensures Normalize(s) == s
  {
    StripFixed(s);
    assert IsSpace('\n') && IsSpace(' ');
    assert '\n' !in s && ' ' !in s;
    RemoveAllAbsent(s, '\n');
    RemoveAllAbsent(s, ' ');
    assert Cleaned(s) == s;
    assert Normalize(s) == PadToFour(s);
  }

  /** No alphabet letter and no padding character is whitespace. */
  lemma AlphabetNotSpace(c: char)
    requires Base64.InAlphabet(c) || c == Base64.Pad
    ensures !IsSpace(c)
  {
  }

  /** Text that strict base 64 decoding accepts is already in normal form:
      it has no whitespace and its length is a multiple of 4. */
  lemma DecodableIsNormal(s: string)
    requires Base64.Decode(s).Some?
    ensures Normalize(s) == s
  {
    forall i | 0 <= i < |s|
      ensures !IsSpace(s[i])
    {
      AlphabetNotSpace(s[i]);
    }
    NormalWithoutSpace(s);
  }

  /** Index of the first comma, where `str.split(",", 1)` cuts. */
  function FirstComma(s: string): (i: nat)
    requires ',' in s
    ensures i < |s| && s[i] == ','
    ensures ',' !in s[..i]
  {
    if s[0] == ',' then 0
    else
      assert ',' in s[1..] by {
        var k :| 0 <= k < |s| && s[k] == ',';
        assert s[1..][k - 1] == ',';
      }
      var j := FirstComma(s[1..]);
      assert s[..j + 1] == [s[0]] + s[1..][..j];
      j + 1
  }

  /** `s.split(",", 1)[1]`: everything after the first comma. */
  function AfterFirstComma(s: string): string
    requires ',' in s
  {
    s[FirstComma(s) + 1..]
  }

  /** A header without a comma, then a comma: the split keeps exactly the payload. */
  lemma AfterHeader(header: string, payload: string)
    requires ',' !in header
    ensures ',' in header + [','] + payload
    ensures AfterFirstComma(header + [','] + payload) == payload
  {
    var s := header + [','] + payload;
    assert s[|header|] == ',';
    assert s[..|header|] == header;
    assert s[|header| + 1..] == payload;
  }

  /** `decode_base64_image`: error 400 when there is no comma or when the
      normalised text after the first comma is not base 64; otherwise the
      decoded octets of that text. */
  function DecodeImage(data: string): (r: Result<Bytes>)
    ensures r.Err? ==> r.error.status == 400 && StartsWith(r.error.detail, InvalidImagePrefix)
    ensures ',' !in data ==> r == Err(HttpError(400, InvalidImagePrefix + MissingCommaMessage))
  {
    if ',' !in data then Err(HttpError(400, InvalidImagePrefix + MissingCommaMessage))
    else
      match Base64.Decode(Normalize(AfterFirstComma(data)))
      case None => Err(HttpError(400, InvalidImagePrefix + DecoderMessage))
      case Some(raw) => Ok(raw)
  }

  /** With a comma, the outcome is the decoding of the normalised text after
      the first comma: its octets when it is base 64, and otherwise a 400
      carrying the decoder's message rather than the missing-comma one. */
  lemma DecodeImageCases(data: string)
    ensures DecodeImage(data).Ok? ==> ',' in data && Base64.Decode(Normalize(AfterFirstComma(data))) == Some(DecodeImage(data).value)
    ensures ',' in data && Base64.Decode(Normalize(AfterFirstComma(data))).Some? ==>
      DecodeImage(data) == Ok(Base64.Decode(Normalize(AfterFirstComma(data))).value)
    ensures ',' in data && Base64.Decode(Normalize(AfterFirstComma(data))).None? ==>
      && DecodeImage(data).Err? && DecodeImage(data).error.status == 400
      && StartsWith(DecodeImage(data).error.detail, InvalidImagePrefix)
      && DecodeImage(data).error.detail != InvalidImagePrefix + MissingCommaMessage
  {
  }

  /** Only the text after the first comma matters: any comma-free header
      gives the same outcome for the same payload. */
  lemma DecodeImageIgnoresHeader(h1: string, h2: string, payload: string)
    requires ',' !in h1 && ',' !in h2
    ensures DecodeImage(h1 + [','] + payload) == DecodeImage(h2 + [','] + payload)
  {
    AfterHeader(h1, payload);
    AfterHeader(h2, payload);
  }

  /** A data URL built from an encoding decodes back to the encoded octets. */
  lemma DecodeImageOfDataUrl(header: string, b: Bytes)
    requires ',' !in header
    ensures DecodeImage(header + [','] + Base64.Encode(b)) == Ok(b)
  {
    AfterHeader(header, Base64.Encode(b));
    NormalizeEncoded(b);
    Base64.DecodeEncode(b);
  }

  /** Removing newlines from two newline-free pieces joined by one newline
      joins the pieces. */
  lemma RemoveLineBreak(x: string, y: string)
    requires '\n' !in x && '\n' !in y
    ensures RemoveAll(x + "\n" + y, '\n') == x + y
  {
    RemoveAllConcat(x + "\n", y, '\n');
    RemoveAllConcat(x, "\n", '\n');
    RemoveAllAbsent(x, '\n');
    RemoveAllAbsent(y, '\n');
    assert RemoveAll("\n", '\n') == [];
    assert x + [] == x;
  }

  /** Cleaning text without whitespace broken by one inner newline gives
      back the unbroken text. */
  lemma CleanedLineBreak(e: string, k: nat)
    requires forall i :: 0 <= i < |e| ==> !IsSpace(e[i])
    requires 0 < k < |e|
    ensures Cleaned(e[..k] + "\n" + e[k..]) == e
  {
    var p := e[..k] + "\n" + e[k..];
    assert p[0] == e[0] && p[|p| - 1] == e[|e| - 1];
    StripFixed(p);
    assert '\n' !in e[..k] && '\n' !in e[k..];
    RemoveLineBreak(e[..k], e[k..]);
    assert e[..k] + e[k..] == e;
    assert ' ' !in e;
    RemoveAllAbsent(e, ' ');
  }

  /** A payload wrapped onto two lines, as MIME line breaking does, decodes
      like the unbroken encoding: the newline is removed before decoding. */
  lemma DecodeImageOfWrappedDataUrl(header: string, b: Bytes, k: nat)
    requires ',' !in header
    requires 0 < k < |Base64.Encode(b)|
    ensures var e := Base64.Encode(b);
      DecodeImage(header + [','] + e[..k] + "\n" + e[k..]) == Ok(b)
  {
    var e := Base64.Encode(b);
    var p := e[..k] + "\n" + e[k..];
    assert header + [','] + e[..k] + "\n" + e[k..] == header + [','] + p;
    AfterHeader(header, p);
    EncodingHasNoSpace(b);
    CleanedLineBreak(e, k);
    assert Normalize(p) == PadToFour(e) == e;
    Base64.DecodeEncode(b);
  }

  /** `gerar_hash_imagem` with the SHA-256 hex digest as the parameter
      `digest`; `None` when Python would raise (no comma, or a payload that is
      not base 64). The hash follows the decoding path of
      `decode_base64_image`: it exists exactly when that decoding succeeds,
      and is the digest of its octets. */
  function HashImage(data: string, digest: Bytes -> string): (r: Option<string>)
    ensures r.Some? <==> DecodeImage(data).Ok?
    ensures DecodeImage(data).Ok? ==> r == Some(digest(DecodeImage(data).value))
  {
    if ',' !in data then None
    else
      match Base64.Decode(Normalize(AfterFirstComma(data)))
      case None => None
      case Some(raw) => Some(digest(raw))
  }

  /** Two payloads that decode to the same octets get the same hash. */
  lemma HashDependsOnlyOnBytes(d1: string, d2: string, digest: Bytes -> string)
    requires DecodeImage(d1).Ok? && DecodeImage(d2).Ok?
    requires DecodeImage(d1).value == DecodeImage(d2).value
    ensures HashImage(d1, digest) == HashImage(d2, digest)
  {
  }

  /** The `data:application/pdf;base64,` URL of rendered PDF octets. */
  function PdfDataUrl(b: Bytes): string
  {
    PdfHeader + Base64.Encode(b)
  }

  /** The `data:image/png;base64,` URL of image octets. */
  function PngDataUrl(b: Bytes): string
  {
    PngHeader + Base64.Encode(b)
  }

  /** Header removal of `upload_pdf`: the text after the first comma, or the
      whole text when it has no comma. */
  function StripHeader(s: string): (r: string)
    ensures ',' !in s ==> r == s
    ensures ',' in s ==>
      |r| < |s| && r == s[|s| - |r|..] && s[|s| - |r| - 1] == ',' && ',' !in s[..|s| - |r| - 1]
  {
    if ',' in s then AfterFirstComma(s) else s
  }

  /** Upload round trip: stripping the header of a data URL built from an
      encoding and decoding it gives back the octets, for both headers the
      handlers use. */
  lemma StripHeaderRoundTrip(b: Bytes)
    ensures Base64.Decode(StripHeader(PdfDataUrl(b))) == Some(b)
    ensures Base64.Decode(StripHeader(PngDataUrl(b))) == Some(b)
  {
    var e := Base64.Encode(b);
    assert PdfHeader == "data:application/pdf;base64" + [','];
    assert PngHeader == "data:image/png;base64" + [','];
    AfterHeader("data:application/pdf;base64", e);
    AfterHeader("data:image/png;base64", e);
    assert PdfDataUrl(b) == "data:application/pdf;base64" + [','] + e;
    assert PngDataUrl(b) == "data:image/png;base64" + [','] + e;
    Base64.DecodeEncode(b);
  }
}
