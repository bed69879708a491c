/** Uploading an attachment and describing it in a pointer; reading a pointer back and
    downloading what it describes. */
module AttachmentsApi {
  import opened Bytes
  import opened Messages
  import Attachments

  datatype Attachment = Attachment(
    data: seq<byte>, contentType: string, fileName: Option<string>, caption: Option<string>, width: Option<int>, height: Option<int>)

  datatype UploadForm = UploadForm(cdn: int, key: string)

  /** What one upload meets: its random draw, the server's form (None if fetching it raised)
      and whether the CDN accepted the blob. */
  datatype Upload = Upload(draw: Attachments.Draw, form: Option<UploadForm>, accepted: bool)

  datatype UploadError = FormFailed | UnsupportedCdn | UploadFailed | FieldOutOfRange

  type Blobs = map<(u32, string), seq<byte>>

  predicate U32Range(n: int) {
    0 <= n < 0x1_0000_0000
  }

  /** A string that Python counts as true, or nothing. */
  function NonEmpty(s: Option<string>): Option<string> {
    if Truthy(s) then s else None
  }

  predicate NumberFits(n: Option<int>) {
    n.Some? ==> U32Range(n.value)
  }

  function SetNumber(n: Option<int>): Option<u32>
    requires NumberFits(n)
  {
    if n.Some? && n.value != 0 then Some(n.value) else None
  }

  function PointerFor(att: Attachment, s: Attachments.Sealed, form: UploadForm): Pointer
    requires form.cdn == 3 && U32Range(|att.data|) && NumberFits(att.width) && NumberFits(att.height)
  {
    Pointer(Some(form.key), Some(form.cdn), Some(att.contentType), Some(s.key), Some(s.digest), Some(|att.data|),
            NonEmpty(att.fileName), NonEmpty(att.caption), SetNumber(att.width), SetNumber(att.height))
  }

  /** The whole upload: the blob is on the CDN before any pointer field can be refused. */
  function UploadOne(c: Attachments.Crypto, blobs: Blobs, att: Attachment, u: Upload): (Blobs, Result<Pointer, UploadError>)
    requires c.Lawful() && u.draw.Valid()
  {
    var s := Attachments.Encrypt(c, att.data, u.draw);
    if u.form.None? then (blobs, Failure(FormFailed))
    else if u.form.value.cdn != 3 then (blobs, Failure(UnsupportedCdn))
    else if !u.accepted then (blobs, Failure(UploadFailed))
    else
      (blobs[(3, u.form.value.key) := s.blob],
       if U32Range(|att.data|) && NumberFits(att.width) && NumberFits(att.height)
       then Success(PointerFor(att, s, u.form.value)) else Failure(FieldOutOfRange))
  }

  class Cdn {
    var blobs: Blobs

    constructor ()
      ensures blobs == map[]
    {
      blobs := map[];
    }

    /** upload_attachment: encrypt, ask for a form, upload, then fill the pointer field by field. */
    method UploadAttachment(c: Attachments.Crypto, att: Attachment, u: Upload) returns (r: Result<Pointer, UploadError>)
      requires c.Lawful() && u.draw.Valid()
      modifies this
      ensures (blobs, r) == UploadOne(c, old(blobs), att, u)
    {
      var s := Attachments.Encrypt(c, att.data, u.draw);
      if u.form.None? {
        return Failure(FormFailed);
      }
      var form := u.form.value;
      if form.cdn != 3 {
        return Failure(UnsupportedCdn);
      }
      if !u.accepted {
        return Failure(UploadFailed);
      }
      blobs := blobs[(3, form.key) := s.blob];
      var ap := EMPTY_POINTER;
      ap := ap.(cdnKey := Some(form.key));
      ap := ap.(cdnNumber := Some(form.cdn));
      ap := ap.(contentType := Some(att.contentType));
      ap := ap.(key := Some(s.key));
      ap := ap.(digest := Some(s.digest));
      if !U32Range(|att.data|) {
        return Failure(FieldOutOfRange);
      }
      ap := ap.(size := Some(|att.data|));
      if Truthy(att.fileName) {
        ap := ap.(fileName := att.fileName);
      }
      if Truthy(att.caption) {
        ap := ap.(caption := att.caption);
      }
      if att.width.Some? && att.width.value != 0 {
        if !U32Range(att.width.value) {
          return Failure(FieldOutOfRange);
        }
        ap := ap.(width := Some(att.width.value));
      }
      if att.height.Some? && att.height.value != 0 {
        if !U32Range(att.height.value) {
          return Failure(FieldOutOfRange);
        }
        ap := ap.(height := Some(att.height.value));
      }
      r := Success(ap);
    }
  }

  function InboundFromPointer(ap: Pointer): InboundAttachment {
    InboundAttachment(
      Or(ap.cdnKey, ""), Or(ap.cdnNumber, 0), Or(ap.key, []), Or(ap.digest, []), Or(ap.size, 0),
      if Truthy(ap.contentType) then ap.contentType.value else "application/octet-stream",
      NonEmpty(ap.fileName), NonEmpty(ap.caption), Or(ap.width, 0), Or(ap.height, 0))
  }

  /** A pointer without any field describes an empty, nameless attachment of unknown type. */
  lemma EmptyPointer()
    ensures InboundFromPointer(EMPTY_POINTER) == InboundAttachment("", 0, [], [], 0, "application/octet-stream", None, None, 0, 0)
  {
  }

  datatype DownloadError = UnknownCdn | NotThere | Bad(error: Attachments.Error)

  function Download(c: Attachments.Crypto, blobs: Blobs, att: InboundAttachment): Result<seq<byte>, DownloadError>
    requires c.Lawful()
  {
    if att.cdnNumber !in {0, 2, 3} then Failure(UnknownCdn)
    else if (att.cdnNumber, att.cdnKey) !in blobs then Failure(NotThere)
    else
      match Attachments.Decrypt(c, blobs[(att.cdnNumber, att.cdnKey)], att.key, att.digest, att.size)
      case Failure(e) => Failure(Bad(e))
      case Success(data) => Success(data)
  }

  /** Only the three CDNs are asked, and only for what they hold. */
  lemma DownloadRefusals(c: Attachments.Crypto, blobs: Blobs, att: InboundAttachment)
    requires c.Lawful()
    ensures att.cdnNumber == 1 || att.cdnNumber > 3 <==> Download(c, blobs, att) == Failure(UnknownCdn)
    ensures att.cdnNumber in {0, 2, 3} && (att.cdnNumber, att.cdnKey) !in blobs <==> Download(c, blobs, att) == Failure(NotThere)
  {
  }

  /** i describes att: the same metadata up to the normal forms of absent and empty. */
  predicate Describes(att: Attachment, i: InboundAttachment) {
    && i.size == |att.data|
    && i.contentType == (if att.contentType == "" then "application/octet-stream" else att.contentType)
    && i.fileName == (if att.fileName == Some("") then None else att.fileName)
    && i.caption == (if att.caption == Some("") then None else att.caption)
    && i.width == Or(att.width, 0) && i.height == Or(att.height, 0)
  }

  /** While the CDN keeps the uploaded blob, the pointer downloads to the original bytes and
      carries the original metadata. */
  lemma UploadThenDownload(c: Attachments.Crypto, blobs: Blobs, att: Attachment, u: Upload, later: Blobs)
    requires c.Lawful() && u.draw.Valid() && UploadOne(c, blobs, att, u).1.Success?
    requires var key := (3, u.form.value.key);
             key in later && later[key] == UploadOne(c, blobs, att, u).0[key]
    ensures var i := InboundFromPointer(UploadOne(c, blobs, att, u).1.value);
            Download(c, later, i) == Success(att.data) && Describes(att, i)
  {
    Attachments.RoundTrip(c, att.data, u.draw);
  }

  /** What each refusal leaves: nothing on the CDN before the blob is accepted, and the blob
      there when only a field of the pointer is refused. */
  lemma UploadRefusals(c: Attachments.Crypto, blobs: Blobs, att: Attachment, u: Upload)
    requires c.Lawful() && u.draw.Valid()
    ensures var (b, r) := UploadOne(c, blobs, att, u);
            && (u.form.None? ==> b == blobs && r == Failure(FormFailed))
            && (u.form.Some? && u.form.value.cdn != 3 ==> b == blobs && r == Failure(UnsupportedCdn))
            && (u.form.Some? && u.form.value.cdn == 3 && !u.accepted ==> b == blobs && r == Failure(UploadFailed))
            && (u.form.Some? && u.form.value.cdn == 3 && u.accepted ==>
                  b == blobs[(3, u.form.value.key) := Attachments.Encrypt(c, att.data, u.draw).blob] && (r.Failure? ==> r.error == FieldOutOfRange))
  {
  }

  /** An upload succeeds exactly when the server's answers and the field widths allow it. */
  lemma UploadSucceedsIff(c: Attachments.Crypto, blobs: Blobs, att: Attachment, u: Upload)
    requires c.Lawful() && u.draw.Valid()
    ensures UploadOne(c, blobs, att, u).1.Success? <==>
              && u.form.Some? && u.form.value.cdn == 3 && u.accepted
              && U32Range(|att.data|) && U32Range(Or(att.width, 0)) && U32Range(Or(att.height, 0))
  {
  }
}
