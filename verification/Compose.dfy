/** Building the padded content of a text message, uploading its attachments on the way. */
module Compose {
  import opened Bytes
  import opened Messages
  import opened AttachmentsApi
  import Attachments
  import Padding

  datatype Group = Group(masterKey: seq<byte>, revision: int)

  datatype Outgoing = Outgoing(text: string, timer: int, group: Option<Group>, attachments: seq<Attachment>)

  /** Upload the attachments in order, stopping at the first error. */
  function UploadAll(c: Attachments.Crypto, blobs: Blobs, atts: seq<Attachment>, uploads: nat -> Upload): (Blobs, Result<seq<Pointer>, UploadError>)
    requires c.Lawful() && forall i :: uploads(i).draw.Valid()
  {
    if atts == [] then (blobs, Success([]))
    else
      var n := |atts| - 1;
      match UploadAll(c, blobs, atts[..n], uploads)
      case (b, Failure(e)) => (b, Failure(e))
      case (b, Success(ps)) =>
        match UploadOne(c, b, atts[n], uploads(n))
        case (b', Failure(e)) => (b', Failure(e))
        case (b', Success(p)) => (b', Success(ps + [p]))
  }

  lemma {:induction false} UploadFailureSticks(c: Attachments.Crypto, blobs: Blobs, atts: seq<Attachment>, uploads: nat -> Upload, n: nat)
    requires c.Lawful() && forall i :: uploads(i).draw.Valid()
    requires n <= |atts| && UploadAll(c, blobs, atts[..n], uploads).1.Failure?
    ensures UploadAll(c, blobs, atts, uploads) == UploadAll(c, blobs, atts[..n], uploads)
    decreases |atts| - n
  {
    if n < |atts| {
      assert atts[..n + 1][..n] == atts[..n];
      UploadFailureSticks(c, blobs, atts, uploads, n + 1);
    } else {
      assert atts[..n] == atts;
    }
  }

  lemma UploadSnoc(c: Attachments.Crypto, blobs: Blobs, atts: seq<Attachment>, uploads: nat -> Upload, i: nat)
    requires c.Lawful() && forall i :: uploads(i).draw.Valid()
    requires i < |atts| && UploadAll(c, blobs, atts[..i], uploads).1.Success?
    ensures var (b, ps) := UploadAll(c, blobs, atts[..i], uploads);
            var (b', p) := UploadOne(c, b, atts[i], uploads(i));
            UploadAll(c, blobs, atts[..i + 1], uploads) == (b', if p.Success? then Success(ps.value + [p.value]) else Failure(p.error))
  {
    assert atts[..i + 1][..i] == atts[..i];
  }

  /** The error of a build's uploads is that of the first attachment refused; those before it
      stay on the CDN. */
  lemma FirstRefusedUpload(c: Attachments.Crypto, blobs: Blobs, atts: seq<Attachment>, uploads: nat -> Upload, i: nat)
    requires c.Lawful() && forall i :: uploads(i).draw.Valid()
    requires i < |atts| && UploadAll(c, blobs, atts[..i], uploads).1.Success?
    requires UploadOne(c, UploadAll(c, blobs, atts[..i], uploads).0, atts[i], uploads(i)).1.Failure?
    ensures var (b, p) := UploadOne(c, UploadAll(c, blobs, atts[..i], uploads).0, atts[i], uploads(i));
            UploadAll(c, blobs, atts, uploads) == (b, Failure(p.error))
  {
    UploadSnoc(c, blobs, atts, uploads, i);
    UploadFailureSticks(c, blobs, atts, uploads, i + 1);
  }

  /** The fields that can be refused before any upload. */
  predicate FieldsFit(m: Outgoing) {
    (m.timer != 0 ==> U32Range(m.timer)) && (m.group.Some? ==> U32Range(m.group.value.revision))
  }

  function MessageOf(m: Outgoing, now: u64, pointers: seq<Pointer>): DataMessage
    requires FieldsFit(m)
  {
    DataMessage(Some(m.text), Some(now), if m.timer != 0 then Some(m.timer) else None, None,
                if m.group.Some? then Some(GroupContext(Some(m.group.value.masterKey), Some(m.group.value.revision))) else None,
                pointers)
  }

  function Built(c: Attachments.Crypto, codec: Codec<Content>, blobs: Blobs, m: Outgoing, uploads: nat -> Upload, now: u64)
    : (Blobs, Result<seq<byte>, UploadError>)
    requires c.Lawful() && forall i :: uploads(i).draw.Valid()
  {
    if !FieldsFit(m) then (blobs, Failure(FieldOutOfRange))
    else
      match UploadAll(c, blobs, m.attachments, uploads)
      case (b, Failure(e)) => (b, Failure(e))
      case (b, Success(ps)) => (b, Success(Padding.Pad(codec.encode(Data(MessageOf(m, now, ps))))))
  }

  /** The fields filled in before any upload. */
  method BuildFields(m: Outgoing, now: u64) returns (r: Result<DataMessage, UploadError>)
    ensures r == if FieldsFit(m) then Success(MessageOf(m, now, [])) else Failure(FieldOutOfRange)
  {
    var dm := DataMessage(Some(m.text), Some(now), None, None, None, []);
    if m.timer != 0 {
      if !U32Range(m.timer) {
        return Failure(FieldOutOfRange);
      }
      dm := dm.(expireTimer := Some(m.timer));
    }
    if m.group.Some? {
      if !U32Range(m.group.value.revision) {
        return Failure(FieldOutOfRange);
      }
      dm := dm.(groupV2 := Some(GroupContext(Some(m.group.value.masterKey), Some(m.group.value.revision))));
    }
    r := Success(dm);
  }

  method BuildTextContent(c: Attachments.Crypto, codec: Codec<Content>, cdn: Cdn, m: Outgoing, uploads: nat -> Upload, now: u64)
    returns (r: Result<seq<byte>, UploadError>)
    requires c.Lawful() && forall i :: uploads(i).draw.Valid()
    modifies cdn
    ensures (cdn.blobs, r) == Built(c, codec, old(cdn.blobs), m, uploads, now)
  {
    var fields := BuildFields(m, now);
    if fields.Failure? {
      return Failure(fields.error);
    }
    var dm := fields.value;
    for i := 0 to |m.attachments|
      invariant dm == MessageOf(m, now, dm.attachments)
      invariant UploadAll(c, old(cdn.blobs), m.attachments[..i], uploads) == (cdn.blobs, Success(dm.attachments))
    {
      UploadSnoc(c, old(cdn.blobs), m.attachments, uploads, i);
      var p := cdn.UploadAttachment(c, m.attachments[i], uploads(i));
      if p.Failure? {
        UploadFailureSticks(c, old(cdn.blobs), m.attachments, uploads, i + 1);
        return Failure(p.error);
      }
      dm := dm.(attachments := dm.attachments + [p.value]);
    }
    assert m.attachments[..|m.attachments|] == m.attachments;
    r := Success(Padding.Pad(codec.encode(Data(dm))));
  }

  /** The upload is answered with a CDN 3 form and accepted, and the attachment's size, width and
      height fit their fields. */
  ghost predicate Uploadable(att: Attachment, u: Upload) {
    && u.form.Some? && u.form.value.cdn == 3 && u.accepted && |att.data| < 0x1_0000_0000
    && (att.width.Some? ==> 0 <= att.width.value < 0x1_0000_0000) && (att.height.Some? ==> 0 <= att.height.value < 0x1_0000_0000)
  }

  lemma UploadableIff(c: Attachments.Crypto, blobs: Blobs, att: Attachment, u: Upload)
    requires c.Lawful() && u.draw.Valid()
    ensures UploadOne(c, blobs, att, u).1.Success? <==> Uploadable(att, u)
  {
    UploadSucceedsIff(c, blobs, att, u);
  }

  ghost predicate AllUploadable(atts: seq<Attachment>, uploads: nat -> Upload) {
    forall i :: 0 <= i < |atts| ==> Uploadable(atts[i], uploads(i))
  }

  lemma UploadableSnoc(atts: seq<Attachment>, att: Attachment, uploads: nat -> Upload)
    ensures AllUploadable(atts + [att], uploads) <==> AllUploadable(atts, uploads) && Uploadable(att, uploads(|atts|))
  {
    var all := atts + [att];
    assert all[|atts|] == att && forall i :: 0 <= i < |atts| ==> all[i] == atts[i];
  }

  lemma {:induction false} UploadsIff(c: Attachments.Crypto, blobs: Blobs, atts: seq<Attachment>, uploads: nat -> Upload)
    requires c.Lawful() && forall i :: uploads(i).draw.Valid()
    ensures UploadAll(c, blobs, atts, uploads).1.Success? <==> AllUploadable(atts, uploads)
    decreases |atts|
  {
    if atts != [] {
      var init, att := atts[..|atts| - 1], atts[|atts| - 1];
      UploadsIff(c, blobs, init, uploads);
      UploadableIff(c, UploadAll(c, blobs, init, uploads).0, att, uploads(|init|));
      UploadableSnoc(init, att, uploads);
      assert init + [att] == atts;
    }
  }

  /** Building succeeds exactly when timer and revision fit 32 bits and every attachment can be
      uploaded; a field that does not fit is refused before any upload. */
  lemma BuiltIff(c: Attachments.Crypto, codec: Codec<Content>, blobs: Blobs, m: Outgoing, uploads: nat -> Upload, now: u64)
    requires c.Lawful() && forall i :: uploads(i).draw.Valid()
    ensures var fits := 0 <= m.timer < 0x1_0000_0000 && (m.group.Some? ==> 0 <= m.group.value.revision < 0x1_0000_0000);
            && (Built(c, codec, blobs, m, uploads, now).1.Success? <==>
                  fits && AllUploadable(m.attachments, uploads))
            && (!fits ==> Built(c, codec, blobs, m, uploads, now) == (blobs, Failure(FieldOutOfRange)))
  {
    UploadsIff(c, blobs, m.attachments, uploads);
  }

  /** The server hands out a fresh object key for each upload. */
  ghost predicate DistinctKeys(atts: seq<Attachment>, uploads: nat -> Upload) {
    forall i: nat, j: nat :: i < j < |atts| && uploads(i).form.Some? && uploads(j).form.Some? ==> uploads(i).form.value.key != uploads(j).form.value.key
  }

  /** i downloads from the CDN to the bytes of att and carries its metadata. */
  ghost predicate Recovers(c: Attachments.Crypto, blobs: Blobs, att: Attachment, i: InboundAttachment)
    requires c.Lawful()
  {
    Download(c, blobs, i) == Success(att.data) && Describes(att, i)
  }

  /** A later upload under another key leaves earlier attachments where they were. */
  lemma UploadKeeps(c: Attachments.Crypto, blobs: Blobs, att: Attachment, u: Upload, earlier: Attachment, i: InboundAttachment)
    requires c.Lawful() && u.draw.Valid() && Recovers(c, blobs, earlier, i)
    requires UploadOne(c, blobs, att, u).1.Success? && u.form.value.key != i.cdnKey
    ensures Recovers(c, UploadOne(c, blobs, att, u).0, earlier, i)
  {
  }

  lemma UploadRecovers(c: Attachments.Crypto, blobs: Blobs, att: Attachment, u: Upload)
    requires c.Lawful() && u.draw.Valid() && UploadOne(c, blobs, att, u).1.Success?
    ensures var (b, p) := UploadOne(c, blobs, att, u);
            u.form.Some? && p.value.cdnKey == Some(u.form.value.key) && Recovers(c, b, att, InboundFromPointer(p.value))
  {
    UploadThenDownload(c, blobs, att, u, UploadOne(c, blobs, att, u).0);
  }

  /** Pointer p stands for attachment att, uploaded under the form's key. */
  ghost predicate Stands(c: Attachments.Crypto, blobs: Blobs, att: Attachment, u: Upload, p: Pointer)
    requires c.Lawful()
  {
    u.form.Some? && p.cdnKey == Some(u.form.value.key) && Recovers(c, blobs, att, InboundFromPointer(p))
  }

  ghost predicate AllStand(c: Attachments.Crypto, blobs: Blobs, atts: seq<Attachment>, uploads: nat -> Upload, ps: seq<Pointer>)
    requires c.Lawful()
  {
    |ps| == |atts| && forall i :: 0 <= i < |atts| ==> Stands(c, blobs, atts[i], uploads(i), ps[i])
  }

  lemma StandsStill(c: Attachments.Crypto, blobs: Blobs, att: Attachment, u: Upload, earlier: Attachment, v: Upload, p: Pointer)
    requires c.Lawful() && u.draw.Valid() && UploadOne(c, blobs, att, u).1.Success?
    requires Stands(c, blobs, earlier, v, p) && v.form.value.key != u.form.value.key
    ensures Stands(c, UploadOne(c, blobs, att, u).0, earlier, v, p)
  {
    UploadKeeps(c, blobs, att, u, earlier, InboundFromPointer(p));
  }

  /** One more upload, under a key of its own. */
  lemma OneMoreStands(c: Attachments.Crypto, blobs: Blobs, atts: seq<Attachment>, uploads: nat -> Upload, ps: seq<Pointer>, n: nat)
    requires c.Lawful() && n < |atts| && uploads(n).draw.Valid() && DistinctKeys(atts, uploads)
    requires AllStand(c, blobs, atts[..n], uploads, ps) && UploadOne(c, blobs, atts[n], uploads(n)).1.Success?
    ensures var (b, p) := UploadOne(c, blobs, atts[n], uploads(n));
            AllStand(c, b, atts[..n + 1], uploads, ps + [p.value])
  {
    var (b, p) := UploadOne(c, blobs, atts[n], uploads(n));
    UploadRecovers(c, blobs, atts[n], uploads(n));
    forall i | 0 <= i < n ensures Stands(c, b, atts[i], uploads(i), ps[i]) {
      assert Stands(c, blobs, atts[..n][i], uploads(i), ps[i]);
      StandsStill(c, blobs, atts[n], uploads(n), atts[i], uploads(i), ps[i]);
    }
    assert Stands(c, b, atts[n], uploads(n), p.value);
  }

  /** After a successful build every pointer recovers its attachment. */
  lemma {:induction false} PointersRecover(c: Attachments.Crypto, blobs: Blobs, atts: seq<Attachment>, uploads: nat -> Upload)
    requires c.Lawful() && forall i :: uploads(i).draw.Valid()
    requires DistinctKeys(atts, uploads) && UploadAll(c, blobs, atts, uploads).1.Success?
    ensures var (b, r) := UploadAll(c, blobs, atts, uploads); AllStand(c, b, atts, uploads, r.value)
    decreases |atts|
  {
    if atts != [] {
      var n := |atts| - 1;
      PointersRecover(c, blobs, atts[..n], uploads);
      var (b, r) := UploadAll(c, blobs, atts[..n], uploads);
      OneMoreStands(c, b, atts, uploads, r.value, n);
      assert atts[..n + 1] == atts;
    }
  }
}
