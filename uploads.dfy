/**
 * The upload filter of the prediction page: the uploaded files are tried in
 * order, the ones that decode become images, the others are reported and
 * skipped. Decoding is an oracle `decode` that succeeds or fails.
 */
module Uploads {
  import opened Wrappers

  /** An uploaded file: its name and its bytes. */
  datatype Upload = Upload(name: string, content: seq<bv8>)

  /** A decoded RGB image; its pixels are never inspected here. */
  datatype Image = Image(rgb: seq<bv8>)

  /** One accepted upload: the name and the decoded image. */
  datatype Decoded = Decoded(name: string, image: Image)

  /** The uploads that decode, in upload order. */
  function Accepted(uploads: seq<Upload>, decode: seq<bv8> -> Option<Image>): seq<Decoded>
  {
    if uploads == [] then []
    else
      var last := uploads[|uploads| - 1];
      Accepted(uploads[..|uploads| - 1], decode) +
        match decode(last.content)
        case Some(img) => [Decoded(last.name, img)]
        case None => []
  }

  /** The names of the uploads that fail to decode, in upload order. */
  function Rejected(uploads: seq<Upload>, decode: seq<bv8> -> Option<Image>): seq<string>
  {
    if uploads == [] then []
    else
      var last := uploads[|uploads| - 1];
      Rejected(uploads[..|uploads| - 1], decode) +
        if decode(last.content).None? then [last.name] else []
  }

  /** Every upload is either accepted or rejected. */
  lemma {:induction false} AcceptedPlusRejected(uploads: seq<Upload>, decode: seq<bv8> -> Option<Image>)
    ensures |Accepted(uploads, decode)| + |Rejected(uploads, decode)| == |uploads|
  {
    if uploads != [] {
      AcceptedPlusRejected(uploads[..|uploads| - 1], decode);
    }
  }

  /** An entry is accepted exactly when some upload with that name decodes to that image. */
  lemma {:induction false} AcceptedMembers(uploads: seq<Upload>, decode: seq<bv8> -> Option<Image>, d: Decoded)
    ensures d in Accepted(uploads, decode) <==>
      exists i :: 0 <= i < |uploads| && uploads[i].name == d.name && decode(uploads[i].content) == Some(d.image)
  {
    if uploads != [] {
      var init := uploads[..|uploads| - 1];
      AcceptedMembers(init, decode, d);
      assert forall i :: 0 <= i < |init| ==> init[i] == uploads[i];
      if exists i :: 0 <= i < |uploads| && uploads[i].name == d.name && decode(uploads[i].content) == Some(d.image) {
        var i :| 0 <= i < |uploads| && uploads[i].name == d.name && decode(uploads[i].content) == Some(d.image);
        if i < |init| {
          assert init[i] == uploads[i];
        }
      }
    }
  }

  /** A name is reported exactly when some upload of that name fails to decode. */
  lemma {:induction false} RejectedMembers(uploads: seq<Upload>, decode: seq<bv8> -> Option<Image>, n: string)
    ensures n in Rejected(uploads, decode) <==>
      exists i :: 0 <= i < |uploads| && uploads[i].name == n && decode(uploads[i].content).None?
  {
    if uploads != [] {
      var init := uploads[..|uploads| - 1];
      RejectedMembers(init, decode, n);
      assert forall i :: 0 <= i < |init| ==> init[i] == uploads[i];
      if exists i :: 0 <= i < |uploads| && uploads[i].name == n && decode(uploads[i].content).None? {
        var i :| 0 <= i < |uploads| && uploads[i].name == n && decode(uploads[i].content).None?;
        if i < |init| {
          assert init[i] == uploads[i];
        }
      }
    }
  }

  /** Nothing is accepted exactly when no upload decodes. */
  lemma {:induction false} AcceptedEmpty(uploads: seq<Upload>, decode: seq<bv8> -> Option<Image>)
    ensures Accepted(uploads, decode) == [] <==> forall i :: 0 <= i < |uploads| ==> decode(uploads[i].content).None?
  {
    if uploads != [] {
      var init := uploads[..|uploads| - 1];
      AcceptedEmpty(init, decode);
      assert forall i :: 0 <= i < |init| ==> init[i] == uploads[i];
    }
  }

  /** The upload loop: `images` and `imageNames` grow together with each file
      that decodes, `validImages` is set by the first success, and each file
      that fails is reported (its name goes to `rejected`). */
  method FilterUploads(uploads: seq<Upload>, decode: seq<bv8> -> Option<Image>)
    returns (images: seq<Image>, imageNames: seq<string>, validImages: bool, rejected: seq<string>)
    ensures |images| == |imageNames| == |Accepted(uploads, decode)|
    ensures forall k :: 0 <= k < |images| ==> Accepted(uploads, decode)[k] == Decoded(imageNames[k], images[k])
    ensures validImages <==> exists i :: 0 <= i < |uploads| && decode(uploads[i].content).Some?
    ensures rejected == Rejected(uploads, decode)
    ensures |images| + |rejected| == |uploads|
  {
    images, imageNames, validImages, rejected := [], [], false, [];
    for i := 0 to |uploads|
      invariant |images| == |imageNames| == |Accepted(uploads[..i], decode)|
      invariant forall k :: 0 <= k < |images| ==> Accepted(uploads[..i], decode)[k] == Decoded(imageNames[k], images[k])
      invariant validImages <==> exists j :: 0 <= j < i && decode(uploads[j].content).Some?
      invariant rejected == Rejected(uploads[..i], decode)
    {
      assert uploads[..i + 1][..i] == uploads[..i];
      var file := uploads[i];
      match decode(file.content)
      case Some(img) =>
        images := images + [img];
        imageNames := imageNames + [file.name];
        validImages := true;
      case None =>
        rejected := rejected + [file.name];
    }
    assert uploads[..|uploads|] == uploads;
    AcceptedPlusRejected(uploads, decode);
  }
}
